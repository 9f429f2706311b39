/** The ban sync loop against a zone whose rules may hold duplicates. */
module BanSync {
  import opened Orders

  // The pieces are the allowlist index, `buildSyncPlan`, `syncCloudflare` and `buildCleanupPlan`.  `IpLib` stands
  // for Go's `net` package: `parseIP` yields the printed form of an address, `cidrOf` that of a network, `covers`
  // whether a network contains a printed address.

  datatype IpLib = IpLib(
    parseIP: string -> Option<string>,
    cidrOf: string -> Option<string>,
    covers: (string, string) -> bool)

  /** A printed address reads back as itself. */
  ghost predicate Normalizing(lib: IpLib) {
    forall s :: lib.parseIP(s).Some? ==> lib.parseIP(lib.parseIP(s).value) == lib.parseIP(s)
  }

  // ---------------------------------------------------------------- the allowlist index

  datatype AllowlistSet = AllowlistSet(ips: set<string>, nets: seq<string>)

  /** The meaning of an allowlist: an entry is an address or a network, and unreadable entries mean nothing. */
  ghost predicate EntryCovers(lib: IpLib, entry: string, ip: string) {
    match lib.parseIP(entry)
    case Some(address) => address == ip
    case None => lib.cidrOf(entry).Some? && lib.covers(lib.cidrOf(entry).value, ip)
  }

  ghost predicate SomeEntryCovers(lib: IpLib, entries: seq<string>, ip: string) {
    exists e :: e in entries && EntryCovers(lib, e, ip)
  }

  ghost predicate Allowlisted(lib: IpLib, entries: seq<string>, text: string) {
    lib.parseIP(text).Some? && SomeEntryCovers(lib, entries, lib.parseIP(text).value)
  }

  ghost predicate IndexCovers(lib: IpLib, index: AllowlistSet, ip: string) {
    ip in index.ips || exists n :: n in index.nets && lib.covers(n, ip)
  }

  lemma {:induction false} OneMoreEntry(lib: IpLib, entries: seq<string>, i: nat, ip: string)
    requires i < |entries|
    ensures SomeEntryCovers(lib, entries[..i + 1], ip) <==>
            SomeEntryCovers(lib, entries[..i], ip) || EntryCovers(lib, entries[i], ip)
  {
    assert entries[..i + 1] == entries[..i] + [entries[i]];
    if EntryCovers(lib, entries[i], ip) { assert entries[i] in entries[..i + 1]; }
  }

  /** `newAllowlistSet`: the compiled index covers exactly what some entry covers. */
  method NewAllowlistSet(lib: IpLib, entries: seq<string>) returns (index: AllowlistSet)
    ensures forall ip :: IndexCovers(lib, index, ip) <==> SomeEntryCovers(lib, entries, ip)
  {
    index := AllowlistSet({}, []);
    for i := 0 to |entries|
      invariant forall ip :: IndexCovers(lib, index, ip) <==> SomeEntryCovers(lib, entries[..i], ip)
    {
      ghost var before := index;
      match lib.parseIP(entries[i]) {
        case Some(address) => index := index.(ips := index.ips + {address});
        case None =>
          match lib.cidrOf(entries[i]) {
            case Some(network) => index := index.(nets := index.nets + [network]);
            case None =>
          }
      }
      forall ip ensures IndexCovers(lib, index, ip) <==> SomeEntryCovers(lib, entries[..i + 1], ip) {
        IndexStep(lib, before, index, entries[i], ip);
        OneMoreEntry(lib, entries, i, ip);
      }
    }
    assert entries[..|entries|] == entries;
  }

  lemma {:induction false} IndexStep(lib: IpLib, before: AllowlistSet, after: AllowlistSet, e: string, ip: string)
    requires match lib.parseIP(e)
             case Some(address) => after == before.(ips := before.ips + {address})
             case None => after == match lib.cidrOf(e) { case Some(n) => before.(nets := before.nets + [n])
               case None => before }
    ensures IndexCovers(lib, after, ip) <==> IndexCovers(lib, before, ip) || EntryCovers(lib, e, ip)
  {
    if lib.parseIP(e).None? && lib.cidrOf(e).Some? {
      assert forall n :: n in after.nets <==> n in before.nets || n == lib.cidrOf(e).value;
    }
  }

  /** `contains`: no index (a failed fetch) covers nothing. */
  method Contains(lib: IpLib, index: Option<AllowlistSet>, text: string) returns (found: bool)
    ensures found <==> index.Some? && lib.parseIP(text).Some? && IndexCovers(lib, index.value, lib.parseIP(text).value)
  {
    if index.None? || lib.parseIP(text).None? { return false; }
    var ip := lib.parseIP(text).value;
    if ip in index.value.ips { return true; }
    var nets := index.value.nets;
    for i := 0 to |nets|
      invariant forall j :: 0 <= j < i ==> !lib.covers(nets[j], ip)
    {
      if lib.covers(nets[i], ip) { return true; }
    }
    return false;
  }

  // ---------------------------------------------------------------- the plan

  /** What a cycle reads: the bans, the protected-address shield, and the allowlist unless its fetch failed. */
  datatype Inputs = Inputs(bans: seq<string>, shield: Option<string -> bool>, allowlist: Option<seq<string>>)

  ghost predicate Protected(inputs: Inputs, ip: string) { inputs.shield.Some? && inputs.shield.value(ip) }

  ghost predicate Excluded(lib: IpLib, inputs: Inputs, ip: string) {
    Protected(inputs, ip) || (inputs.allowlist.Some? && Allowlisted(lib, inputs.allowlist.value, ip))
  }

  /** The addresses that should have a rule. */
  ghost function Eligible(lib: IpLib, inputs: Inputs): set<string> {
    set b | b in inputs.bans && lib.parseIP(b).Some? && !Excluded(lib, inputs, lib.parseIP(b).value) ::
      lib.parseIP(b).value
  }

  datatype SyncPlan = SyncPlan(activeBans: set<string>, cfRules: set<string>, toAdd: seq<string>, toDelete: seq<string>)

  ghost predicate IsPlan(eligible: set<string>, listed: set<string>, plan: SyncPlan) {
    && plan.activeBans == eligible && plan.cfRules == listed
    && Elements(plan.toAdd) == eligible - listed && Distinct(plan.toAdd)
    && Elements(plan.toDelete) == listed - eligible && Distinct(plan.toDelete)
  }

  /** A set difference listed in whatever order the map is visited. */
  method ListDifference(a: set<string>, b: set<string>) returns (r: seq<string>)
    ensures Elements(r) == a - b && Distinct(r)
  {
    r := [];
    var todo := a;
    while todo != {}
      invariant todo <= a && Elements(r) == (a - todo) - b && Distinct(r)
      decreases |todo|
    {
      var x :| x in todo;
      todo := todo - {x};
      if x !in b {
        assert x !in Elements(r);
        AppendElement(r, x);
        r := r + [x];
      }
    }
  }

  lemma {:induction false} EligibleStep(lib: IpLib, inputs: Inputs, i: nat)
    requires i < |inputs.bans|
    ensures var b := inputs.bans[i];
            Eligible(lib, inputs.(bans := inputs.bans[..i + 1])) ==
            Eligible(lib, inputs.(bans := inputs.bans[..i])) +
            if lib.parseIP(b).Some? && !Excluded(lib, inputs, lib.parseIP(b).value) then {lib.parseIP(b).value} else {}
  {
    assert inputs.bans[..i + 1] == inputs.bans[..i] + [inputs.bans[i]];
    var shorter, longer := inputs.(bans := inputs.bans[..i]), inputs.(bans := inputs.bans[..i + 1]);
    assert forall ip :: Excluded(lib, shorter, ip) == Excluded(lib, inputs, ip) == Excluded(lib, longer, ip);
  }

  method BuildSyncPlan(lib: IpLib, inputs: Inputs, listed: set<string>) returns (plan: SyncPlan)
    requires Normalizing(lib)
    ensures IsPlan(Eligible(lib, inputs), listed, plan)
  {
    var index: Option<AllowlistSet> := None;
    if inputs.allowlist.Some? {
      var compiled := NewAllowlistSet(lib, inputs.allowlist.value);
      index := Some(compiled);
    }
    var banSet: set<string> := {};
    for i := 0 to |inputs.bans|
      invariant banSet == Eligible(lib, inputs.(bans := inputs.bans[..i]))
    {
      EligibleStep(lib, inputs, i);
      var parsed := lib.parseIP(inputs.bans[i]);
      if parsed.None? { continue; }
      if inputs.shield.Some? && inputs.shield.value(parsed.value) { continue; }
      var allowed := Contains(lib, index, parsed.value);
      assert lib.parseIP(parsed.value) == parsed;
      if allowed { continue; }
      banSet := banSet + {parsed.value};
    }
    assert inputs.(bans := inputs.bans[..|inputs.bans|]) == inputs;
    var toAdd := ListDifference(banSet, listed);
    var toDelete := ListDifference(listed, banSet);
    plan := SyncPlan(banSet, listed, toAdd, toDelete);
  }

  /** Which addresses should have a rule: exactly those some ban reads as, that the shield does not protect, and that no
      entry of a fetched allowlist is, or covers as a network. */
  lemma {:induction false} EligibleExactly(lib: IpLib, inputs: Inputs, ip: string)
    requires Normalizing(lib)
    ensures ip in Eligible(lib, inputs) <==>
            && (exists b :: b in inputs.bans && lib.parseIP(b) == Some(ip))
            && (inputs.shield.Some? ==> !inputs.shield.value(ip))
            && (inputs.allowlist.Some? ==> forall e :: e in inputs.allowlist.value ==>
                  && lib.parseIP(e) != Some(ip)
                  && (lib.parseIP(e).None? && lib.cidrOf(e).Some? ==> !lib.covers(lib.cidrOf(e).value, ip)))
  {
    if b :| b in inputs.bans && lib.parseIP(b) == Some(ip) {
      assert lib.parseIP(ip) == Some(ip);
      if inputs.allowlist.Some? {
        assert Allowlisted(lib, inputs.allowlist.value, ip) <==> SomeEntryCovers(lib, inputs.allowlist.value, ip);
      }
    }
  }

  /** No protected address and no address a fetched allowlist covers is ever planned for addition. */
  lemma {:induction false} NothingExcludedIsAdded(
    lib: IpLib, inputs: Inputs, listed: set<string>, plan: SyncPlan, ip: string)
    requires Normalizing(lib) && IsPlan(Eligible(lib, inputs), listed, plan) && ip in plan.toAdd
    ensures !Protected(inputs, ip)
    ensures inputs.allowlist.Some? ==> forall e :: e in inputs.allowlist.value ==> !EntryCovers(lib, e, ip)
  {
    assert ip in Elements(plan.toAdd);
    var b :| b in inputs.bans && lib.parseIP(b) == Some(ip) && !Excluded(lib, inputs, ip);
    assert lib.parseIP(ip) == Some(ip);
  }

  // ---------------------------------------------------------------- the zone

  datatype Rule = Rule(value: string, note: string)

  const NOTE_TAG := "crowdsec-local-ban"

  /** The zone's access rules by rule ID; several may name one address. */
  type Rules = map<nat, Rule>

  function Norm(lib: IpLib, value: string): string {
    if lib.parseIP(value).Some? then lib.parseIP(value).value else value
  }

  predicate Ours(r: Rule) { r.note == NOTE_TAG && r.value != "" }

  ghost function RuleIds(rules: Rules): set<nat> { set id | id in rules && Ours(rules[id]) }

  /** The addresses our rules name. */
  ghost function RuleIps(lib: IpLib, rules: Rules): set<string> {
    set id | id in RuleIds(rules) :: Norm(lib, rules[id].value)
  }

  /** `ListIPAccessRulesByTag`: one rule ID per address, whichever duplicate came last. */
  ghost predicate IsListing(lib: IpLib, rules: Rules, listing: map<string, nat>) {
    && listing.Keys == RuleIps(lib, rules)
    && forall ip :: ip in listing ==> listing[ip] in RuleIds(rules) && Norm(lib, rules[listing[ip]].value) == ip
  }

  /** A rule carries the sync loop's note and names the address, read or as it stands. */
  ghost predicate TaggedFor(lib: IpLib, r: Rule, ip: string) {
    && r.note == "crowdsec-local-ban" && r.value != ""
    && (lib.parseIP(r.value) == Some(ip) || (lib.parseIP(r.value).None? && r.value == ip))
  }

  /** What the listing holds, rule by rule: exactly the addresses some rule with that note names, each with such a
      rule. */
  lemma {:induction false} ListingExactly(lib: IpLib, rules: Rules, listing: map<string, nat>, ip: string)
    requires IsListing(lib, rules, listing)
    ensures ip in listing <==> exists id :: id in rules && TaggedFor(lib, rules[id], ip)
    ensures ip in listing ==> listing[ip] in rules && TaggedFor(lib, rules[listing[ip]], ip)
  {
    if id :| id in rules && TaggedFor(lib, rules[id], ip) { assert id in RuleIds(rules); }
  }

  method ListByTag(lib: IpLib, rules: Rules) returns (listing: map<string, nat>)
    ensures IsListing(lib, rules, listing)
  {
    listing := map[];
    var todo := rules.Keys;
    ghost var done: Rules := map[];
    while todo != {}
      invariant todo <= rules.Keys && done == map id | id in rules && id !in todo :: rules[id]
      invariant IsListing(lib, done, listing)
      decreases |todo|
    {
      var id :| id in todo;
      todo := todo - {id};
      ListingStep(lib, done, listing, id, rules[id]);
      done := done[id := rules[id]];
      if Ours(rules[id]) { listing := listing[Norm(lib, rules[id].value) := id]; }
    }
    assert done == rules;
  }

  lemma {:induction false} RuleIpsStep(lib: IpLib, rules: Rules, id: nat, r: Rule)
    requires id !in rules
    ensures RuleIds(rules[id := r]) == RuleIds(rules) + if Ours(r) then {id} else {}
    ensures RuleIps(lib, rules[id := r]) == RuleIps(lib, rules) + if Ours(r) then {Norm(lib, r.value)} else {}
  {
    var more := rules[id := r];
    assert RuleIds(more) == RuleIds(rules) + if Ours(r) then {id} else {};
    forall ip ensures ip in RuleIps(lib, more) <==> ip in RuleIps(lib, rules) || (Ours(r) && ip == Norm(lib, r.value)) {
      if ip in RuleIps(lib, rules) {
        var i :| i in RuleIds(rules) && Norm(lib, rules[i].value) == ip;
        assert i in RuleIds(more) && more[i] == rules[i];
      }
      if Ours(r) && ip == Norm(lib, r.value) { assert id in RuleIds(more); }
    }
  }

  lemma {:induction false} ListingStep(lib: IpLib, rules: Rules, listing: map<string, nat>, id: nat, r: Rule)
    requires IsListing(lib, rules, listing) && id !in rules
    ensures IsListing(lib, rules[id := r], if Ours(r) then listing[Norm(lib, r.value) := id] else listing)
  {
    RuleIpsStep(lib, rules, id, r);
  }

  // ---------------------------------------------------------------- one cycle

  /** Which provider calls succeed, which of the failed ones had their effect all the same, and after how many successes
      the context is cancelled (if ever). */
  datatype Weather = Weather(
    addOk: string -> bool,
    deleteOk: nat -> bool,
    addLands: string -> bool,
    deleteLands: nat -> bool,
    cancelAfter: Option<nat>)

  /** What a cycle did: rules deleted, and rules created under fresh IDs. */
  ghost predicate Outcome(lib: IpLib, eligible: set<string>, rules: Rules, listing: map<string, nat>, rules': Rules,
                          deleted: set<nat>, created: Rules) {
    && deleted <= (set ip | ip in listing && ip !in eligible :: listing[ip])
    && created.Keys !! rules.Keys
    && (forall id :: id in created ==> created[id].note == NOTE_TAG && created[id].value in eligible - listing.Keys)
    && rules' == (rules - deleted) + created
  }

  /** Every planned call was made and succeeded. */
  ghost predicate Complete(eligible: set<string>, listing: map<string, nat>, deleted: set<nat>, created: Rules) {
    && deleted == (set ip | ip in listing && ip !in eligible :: listing[ip])
    && (forall ip :: ip in eligible - listing.Keys ==> exists id :: id in created && created[id].value == ip)
  }

  ghost predicate Cycle(lib: IpLib, eligible: set<string>, rules: Rules, rules': Rules) {
    exists listing: map<string, nat>, deleted: set<nat>, created: Rules ::
      IsListing(lib, rules, listing) && Outcome(lib, eligible, rules, listing, rules', deleted, created)
  }

  ghost predicate CleanCycle(lib: IpLib, eligible: set<string>, rules: Rules, rules': Rules) {
    exists listing: map<string, nat>, deleted: set<nat>, created: Rules ::
      && IsListing(lib, rules, listing)
      && Outcome(lib, eligible, rules, listing, rules', deleted, created)
      && Complete(eligible, listing, deleted, created)
  }

  /** Addresses are printed forms. */
  ghost predicate Printed(lib: IpLib, eligible: set<string>) {
    forall ip :: ip in eligible ==> ip != "" && lib.parseIP(ip) == Some(ip)
  }

  lemma {:induction false} OutcomeIps(lib: IpLib, eligible: set<string>, rules: Rules, listing: map<string, nat>,
    rules': Rules,
                   deleted: set<nat>, created: Rules)
    requires Printed(lib, eligible) && IsListing(lib, rules, listing)
    requires Outcome(lib, eligible, rules, listing, rules', deleted, created)
    ensures RuleIds(rules') == (RuleIds(rules) - deleted) + created.Keys
    ensures forall id :: id in created ==> Norm(lib, rules'[id].value) == created[id].value
    ensures forall id :: id in RuleIds(rules) - deleted ==> rules'[id] == rules[id]
    ensures forall id :: id in deleted ==> id in RuleIds(rules) && Norm(lib, rules[id].value) !in eligible
    ensures forall id :: id in rules && !Ours(rules[id]) ==> id in rules' && rules'[id] == rules[id]
  {}

  /** Whatever fails, our rules stay between the two sets: nothing wanted is lost, nothing unwanted appears. */
  lemma {:induction false} PartialFailureStaysBetween(lib: IpLib, eligible: set<string>, rules: Rules, rules': Rules)
    requires Printed(lib, eligible) && Cycle(lib, eligible, rules, rules')
    ensures RuleIps(lib, rules) * eligible <= RuleIps(lib, rules') <= RuleIps(lib, rules) + eligible
  {
    var listing: map<string, nat>, deleted: set<nat>, created: Rules :|
      IsListing(lib, rules, listing) && Outcome(lib, eligible, rules, listing, rules', deleted, created);
    OutcomeIps(lib, eligible, rules, listing, rules', deleted, created);
    forall ip | ip in RuleIps(lib, rules) * eligible ensures ip in RuleIps(lib, rules') {
      var id :| id in RuleIds(rules) && Norm(lib, rules[id].value) == ip;
      assert id in RuleIds(rules') && rules'[id] == rules[id];
    }
    forall ip | ip in RuleIps(lib, rules') ensures ip in RuleIps(lib, rules) + eligible {
      var id :| id in RuleIds(rules') && Norm(lib, rules'[id].value) == ip;
      if id in RuleIds(rules) - deleted { assert rules'[id] == rules[id]; }
    }
  }

  // ---------------------------------------------------------------- convergence

  /** Rules that should not be there, counted with duplicates. */
  ghost function Stale(lib: IpLib, eligible: set<string>, rules: Rules): set<nat> {
    set id | id in RuleIds(rules) && Norm(lib, rules[id].value) !in eligible
  }

  ghost function Missing(lib: IpLib, eligible: set<string>, rules: Rules): set<string> {
    eligible - RuleIps(lib, rules)
  }

  ghost function Measure(lib: IpLib, eligible: set<string>, rules: Rules): nat {
    |Stale(lib, eligible, rules)| + |Missing(lib, eligible, rules)|
  }

  lemma {:induction false} MeasureZero(lib: IpLib, eligible: set<string>, rules: Rules)
    ensures Measure(lib, eligible, rules) == 0 <==> RuleIps(lib, rules) == eligible
  {
    if Measure(lib, eligible, rules) == 0 {
      forall ip | ip in RuleIps(lib, rules) ensures ip in eligible {
        var id :| id in RuleIds(rules) && Norm(lib, rules[id].value) == ip;
        assert id !in Stale(lib, eligible, rules);
      }
      assert forall ip :: ip in eligible ==> ip !in Missing(lib, eligible, rules);
    }
    if RuleIps(lib, rules) == eligible {
      assert Missing(lib, eligible, rules) == {};
      forall id | id in RuleIds(rules) ensures Norm(lib, rules[id].value) in RuleIps(lib, rules) {}
      assert Stale(lib, eligible, rules) == {};
    }
  }

  lemma {:induction false} CleanCycleShrinks(lib: IpLib, eligible: set<string>, rules: Rules, rules': Rules)
    requires Printed(lib, eligible) && CleanCycle(lib, eligible, rules, rules')
    ensures Missing(lib, eligible, rules') == {}
    ensures Stale(lib, eligible, rules') <= Stale(lib, eligible, rules)
    ensures Stale(lib, eligible, rules) != {} ==> Stale(lib, eligible, rules') != Stale(lib, eligible, rules)
  {
    var listing: map<string, nat>, deleted: set<nat>, created: Rules :|
      && IsListing(lib, rules, listing)
      && Outcome(lib, eligible, rules, listing, rules', deleted, created)
      && Complete(eligible, listing, deleted, created);
    OutcomeIps(lib, eligible, rules, listing, rules', deleted, created);
    forall ip | ip in eligible ensures ip in RuleIps(lib, rules') {
      if ip in listing {
        var id := listing[ip];
        assert id in RuleIds(rules') && rules'[id] == rules[id];
      } else {
        assert ip in eligible - listing.Keys;
        var id: nat :| id in created && created[id].value == ip;
        assert id in RuleIds(rules');
      }
    }
    forall id | id in Stale(lib, eligible, rules') ensures id in Stale(lib, eligible, rules) {
      assert id !in created;
    }
    if id :| id in Stale(lib, eligible, rules) {
      var ip := Norm(lib, rules[id].value);
      assert ip in RuleIps(lib, rules);
      assert listing[ip] in deleted && listing[ip] in Stale(lib, eligible, rules);
      assert listing[ip] !in RuleIds(rules');
    }
  }

  /** Each failure-free cycle on unchanged inputs makes progress until there is nothing left to do. */
  lemma {:induction false} CleanCycleDecreases(lib: IpLib, eligible: set<string>, rules: Rules, rules': Rules)
    requires Printed(lib, eligible) && CleanCycle(lib, eligible, rules, rules')
    ensures Measure(lib, eligible, rules) > 0 ==> Measure(lib, eligible, rules') < Measure(lib, eligible, rules)
    ensures Measure(lib, eligible, rules) == 0 ==> Measure(lib, eligible, rules') == 0
  {
    CleanCycleShrinks(lib, eligible, rules, rules');
    var stale, stale' := Stale(lib, eligible, rules), Stale(lib, eligible, rules');
    SubsetSize(stale', stale);
    if stale == {} { assert stale' == {}; }
  }

  lemma {:induction false} TailOfCleanRun(lib: IpLib, eligible: set<string>, states: seq<Rules>)
    requires |states| > 1 && forall i :: 0 <= i < |states| - 1 ==> CleanCycle(lib, eligible, states[i], states[i + 1])
    ensures var rest := states[1..];
            && rest[0] == states[1] && rest[|rest| - 1] == states[|states| - 1]
            && forall i :: 0 <= i < |rest| - 1 ==> CleanCycle(lib, eligible, rest[i], rest[i + 1])
  {
    var rest := states[1..];
    forall i | 0 <= i < |rest| - 1 ensures CleanCycle(lib, eligible, rest[i], rest[i + 1]) {
      assert CleanCycle(lib, eligible, states[i + 1], states[i + 2]);
    }
  }

  /** After at most as many failure-free cycles as there are stale rules and missing bans, the rules name
      exactly the eligible addresses. */
  lemma {:induction false} SyncConverges(lib: IpLib, eligible: set<string>, states: seq<Rules>)
    requires Printed(lib, eligible) && states != []
    requires forall i :: 0 <= i < |states| - 1 ==> CleanCycle(lib, eligible, states[i], states[i + 1])
    requires |states| - 1 >= Measure(lib, eligible, states[0])
    ensures RuleIps(lib, states[|states| - 1]) == eligible
    decreases |states|
  {
    if |states| == 1 {
      MeasureZero(lib, eligible, states[0]);
    } else {
      CleanCycleDecreases(lib, eligible, states[0], states[1]);
      TailOfCleanRun(lib, eligible, states);
      SyncConverges(lib, eligible, states[1..]);
    }
  }

  /** The sync loop leaves every other component's rules alone: a rule whose note is not its own stays as it is. */
  lemma {:induction false} ForeignRulesStay(lib: IpLib, eligible: set<string>, rules: Rules, rules': Rules, id: nat)
    requires Cycle(lib, eligible, rules, rules')
    requires id in rules && rules[id].note != "crowdsec-local-ban"
    ensures id in rules' && rules'[id] == rules[id]
  {
    var listing: map<string, nat>, deleted: set<nat>, created: Rules :|
      IsListing(lib, rules, listing) && Outcome(lib, eligible, rules, listing, rules', deleted, created);
    assert id !in deleted;
  }

  /** Over any run, with any failures and any changing inputs. */
  lemma {:induction false} ForeignRulesStayForever(
    lib: IpLib, wanted: seq<set<string>>, states: seq<Rules>, id: nat)
    requires |states| == |wanted| + 1
    requires forall i :: 0 <= i < |wanted| ==> Cycle(lib, wanted[i], states[i], states[i + 1])
    requires id in states[0] && states[0][id].note != "crowdsec-local-ban"
    ensures id in states[|wanted|] && states[|wanted|][id] == states[0][id]
    decreases |wanted|
  {
    if wanted != [] {
      var n := |wanted| - 1;
      ForeignRulesStayForever(lib, wanted[..n], states[..n + 1], id);
      ForeignRulesStay(lib, wanted[n], states[n], states[n + 1], id);
    }
  }

  /** What any cycle takes away and what it puts there: a rule that goes carries the note and names an address that is
      not eligible; a rule that appears carries the note and is for an eligible address that had none. */
  lemma {:induction false} CycleTouches(lib: IpLib, eligible: set<string>, rules: Rules, rules': Rules, id: nat)
    requires Cycle(lib, eligible, rules, rules')
    ensures id in rules && id !in rules' ==> exists ip :: TaggedFor(lib, rules[id], ip) && ip !in eligible
    ensures id in rules && id in rules' ==> rules'[id] == rules[id]
    ensures id in rules' && id !in rules ==>
              && rules'[id].note == "crowdsec-local-ban" && rules'[id].value in eligible
              && forall other :: other in rules ==> !TaggedFor(lib, rules[other], rules'[id].value)
  {
    var listing: map<string, nat>, deleted: set<nat>, created: Rules :|
      IsListing(lib, rules, listing) && Outcome(lib, eligible, rules, listing, rules', deleted, created);
    if id in rules && id !in rules' {
      var ip :| ip in listing && ip !in eligible && listing[ip] == id;
      ListingExactly(lib, rules, listing, ip);
    }
    if id in rules' && id !in rules { ListingExactly(lib, rules, listing, rules'[id].value); }
  }

  /** After a failure-free cycle every eligible address has a rule with the note, and of every other address that had
      one a rule is gone. */
  lemma {:induction false} CleanCycleServes(lib: IpLib, eligible: set<string>, rules: Rules, rules': Rules, ip: string)
    requires Printed(lib, eligible) && CleanCycle(lib, eligible, rules, rules')
    ensures ip in eligible ==> exists id :: id in rules' && TaggedFor(lib, rules'[id], ip)
    ensures ip !in eligible && (exists id :: id in rules && TaggedFor(lib, rules[id], ip)) ==>
              exists id :: id in rules && id !in rules' && TaggedFor(lib, rules[id], ip)
  {
    var listing: map<string, nat>, deleted: set<nat>, created: Rules :|
      && IsListing(lib, rules, listing)
      && Outcome(lib, eligible, rules, listing, rules', deleted, created)
      && Complete(eligible, listing, deleted, created);
    ListingExactly(lib, rules, listing, ip);
    if ip in eligible {
      if ip in listing {
        KeptIfListed(lib, eligible, rules, listing, rules', deleted, created, ip);
      } else {
        assert ip in eligible - listing.Keys;
        var id :| id in created && created[id].value == ip;
        assert TaggedFor(lib, rules'[id], ip);
      }
    } else if ip in listing {
      assert listing[ip] in deleted;
    }
  }

  lemma {:induction false} KeptIfListed(
    lib: IpLib, eligible: set<string>, rules: Rules, listing: map<string, nat>, rules': Rules, deleted: set<nat>,
    created: Rules, ip: string)
    requires IsListing(lib, rules, listing) && Outcome(lib, eligible, rules, listing, rules', deleted, created)
    requires ip in eligible && ip in listing
    ensures listing[ip] in rules' && TaggedFor(lib, rules'[listing[ip]], ip)
  {
    ListingExactly(lib, rules, listing, ip);
    assert listing[ip] !in deleted;
  }

  /** A converged zone is left alone, duplicates of wanted rules included. */
  lemma {:induction false} ConvergedIsFixed(lib: IpLib, eligible: set<string>, rules: Rules, rules': Rules)
    requires RuleIps(lib, rules) == eligible && Cycle(lib, eligible, rules, rules')
    ensures rules' == rules
  {
    var listing: map<string, nat>, deleted: set<nat>, created: Rules :|
      IsListing(lib, rules, listing) && Outcome(lib, eligible, rules, listing, rules', deleted, created);
    NothingToDo(lib, eligible, rules, listing, rules', deleted, created);
  }

  lemma {:induction false} NothingToDo(
    lib: IpLib, eligible: set<string>, rules: Rules, listing: map<string, nat>, rules': Rules,
    deleted: set<nat>, created: Rules)
    requires listing.Keys == eligible && Outcome(lib, eligible, rules, listing, rules', deleted, created)
    ensures rules' == rules
  {
    assert eligible - listing.Keys == {};
    assert created.Keys == {};
    assert deleted == {};
  }

  lemma {:induction false} NotEligibleNotAdded(lib: IpLib, eligible: set<string>, rules: Rules, rules': Rules, id: nat)
    requires Printed(lib, eligible) && Cycle(lib, eligible, rules, rules')
    requires id in RuleIds(rules') && Norm(lib, rules'[id].value) !in eligible
    ensures id in RuleIds(rules) && rules[id] == rules'[id]
  {
    var listing: map<string, nat>, deleted: set<nat>, created: Rules :|
      IsListing(lib, rules, listing) && Outcome(lib, eligible, rules, listing, rules', deleted, created);
    OutcomeIps(lib, eligible, rules, listing, rules', deleted, created);
  }

  /** Over any run, with any failures and any changing inputs, an address that is not eligible in any of its cycles
      gains no rule; so a protected address never does. */
  lemma {:induction false} NeverEligibleNeverAdded(lib: IpLib, wanted: seq<set<string>>, states: seq<Rules>, id: nat)
    requires |states| == |wanted| + 1
    requires forall i :: 0 <= i < |wanted| ==>
               Printed(lib, wanted[i]) && Cycle(lib, wanted[i], states[i], states[i + 1])
    requires id in RuleIds(states[|wanted|])
    requires forall i :: 0 <= i < |wanted| ==> Norm(lib, states[|wanted|][id].value) !in wanted[i]
    ensures id in RuleIds(states[0]) && states[0][id] == states[|wanted|][id]
    decreases |wanted|
  {
    if wanted != [] {
      var n := |wanted| - 1;
      NotEligibleNotAdded(lib, wanted[n], states[n], states[n + 1], id);
      NeverEligibleNeverAdded(lib, wanted[..n], states[..n + 1], id);
    }
  }

  lemma {:induction false} EligibleIsPrinted(lib: IpLib, inputs: Inputs)
    requires Normalizing(lib) && lib.parseIP("").None?
    ensures Printed(lib, Eligible(lib, inputs))
    ensures forall ip :: ip in Eligible(lib, inputs) ==> !Excluded(lib, inputs, ip)
  {}

  // ---------------------------------------------------------------- the loop against the zone

  class Zone {
    var rules: Rules
    var nextId: nat

    ghost predicate Valid()
      reads this
    {
      forall id :: id in rules ==> id < nextId
    }

    constructor ()
      ensures Valid() && rules == map[]
    {
      rules := map[];
      nextId := 0;
    }

    /** The provider stores a rule under an ID it never used before. */
    method Create(r: Rule)
      requires Valid()
      modifies this
      ensures Valid() && old(nextId) !in old(rules) && rules == old(rules)[old(nextId) := r]
    {
      rules := rules[nextId := r];
      nextId := nextId + 1;
    }
  }

  ghost predicate Fair(weather: Weather) {
    weather.cancelAfter.None? && (forall ip :: weather.addOk(ip)) && (forall id :: weather.deleteOk(id))
  }

  predicate Cancelled(weather: Weather, successes: nat) {
    weather.cancelAfter.Some? && successes >= weather.cancelAfter.value
  }

  ghost predicate Names(created: Rules, ips: seq<string>) {
    forall id :: id in created ==> created[id].note == NOTE_TAG && created[id].value in ips
  }

  ghost predicate AllCreated(created: Rules, ips: seq<string>) {
    forall ip :: ip in ips ==> exists id :: id in created && created[id].value == ip
  }

  lemma {:induction false} CreateOne(created: Rules, ips: seq<string>, i: nat, id: nat)
    requires i < |ips| && id !in created && Names(created, ips[..i])
    ensures Names(created[id := Rule(ips[i], NOTE_TAG)], ips[..i + 1])
    ensures AllCreated(created, ips[..i]) ==> AllCreated(created[id := Rule(ips[i], NOTE_TAG)], ips[..i + 1])
  {
    assert ips[..i + 1] == ips[..i] + [ips[i]];
    var more := created[id := Rule(ips[i], NOTE_TAG)];
    assert more[id].value == ips[i];
    assert forall j :: j in created ==> j in more && more[j] == created[j];
  }

  /** Every address whose call succeeds has a new rule. */
  ghost predicate AllTried(created: Rules, ips: seq<string>, weather: Weather) {
    forall ip :: ip in ips && weather.addOk(ip) ==> exists id :: id in created && created[id].value == ip
  }

  lemma {:induction false} TryOne(created: Rules, ips: seq<string>, i: nat, id: nat, weather: Weather)
    requires i < |ips| && id !in created && AllTried(created, ips[..i], weather)
    ensures AllTried(created[id := Rule(ips[i], NOTE_TAG)], ips[..i + 1], weather)
    ensures !weather.addOk(ips[i]) ==> AllTried(created, ips[..i + 1], weather)
  {
    assert ips[..i + 1] == ips[..i] + [ips[i]];
    var more := created[id := Rule(ips[i], NOTE_TAG)];
    assert more[id].value == ips[i];
    assert forall j :: j in created ==> j in more && more[j] == created[j];
  }

  ghost predicate Extends(before: Rules, created: Rules, after: Rules) {
    after == before + created && created.Keys !! before.Keys
  }

  lemma {:induction false} ExtendOne(before: Rules, created: Rules, after: Rules, id: nat, r: Rule)
    requires Extends(before, created, after) && id !in after
    ensures id !in created && Extends(before, created[id := r], after[id := r])
  {
  }

  lemma {:induction false} NamesGrow(created: Rules, ips: seq<string>, i: nat)
    requires i <= |ips| && Names(created, ips[..i])
    ensures Names(created, ips) && (i < |ips| ==> Names(created, ips[..i + 1]))
  {
    assert forall ip :: ip in ips[..i] ==> ip in ips;
    if i < |ips| { assert ips[..i + 1] == ips[..i] + [ips[i]]; }
  }

  /** The adding loop: a failed call is skipped, a cancelled context ends the cycle. */
  method AddMissing(
    zone: Zone, toAdd: seq<string>, weather: Weather) returns (successes: nat, done: bool, ghost created: Rules)
    requires zone.Valid()
    modifies zone
    ensures zone.Valid() && zone.rules == old(zone.rules) + created && created.Keys !! old(zone.rules).Keys
    ensures Names(created, toAdd)
    ensures Fair(weather) ==> done && AllCreated(created, toAdd)
    ensures done ==> AllTried(created, toAdd, weather)
  {
    successes, done, created := 0, true, map[];
    for i := 0 to |toAdd|
      invariant zone.Valid() && Extends(old(zone.rules), created, zone.rules)
      invariant Names(created, toAdd[..i])
      invariant Fair(weather) ==> AllCreated(created, toAdd[..i])
      invariant AllTried(created, toAdd[..i], weather)
    {
      NamesGrow(created, toAdd, i);
      TryOne(created, toAdd, i, zone.nextId, weather);
      if weather.addOk(toAdd[i]) || weather.addLands(toAdd[i]) {
        CreateOne(created, toAdd, i, zone.nextId);
        ExtendOne(old(zone.rules), created, zone.rules, zone.nextId, Rule(toAdd[i], NOTE_TAG));
        NamesGrow(created[zone.nextId := Rule(toAdd[i], NOTE_TAG)], toAdd, i + 1);
        created := created[zone.nextId := Rule(toAdd[i], NOTE_TAG)];
        zone.Create(Rule(toAdd[i], NOTE_TAG));
      }
      if weather.addOk(toAdd[i]) {
        successes := successes + 1;
        if Cancelled(weather, successes) {
          done := false;
          return;
        }
      }
    }
    assert toAdd[..|toAdd|] == toAdd;
  }

  ghost function IdsOf(ips: seq<string>, listing: map<string, nat>): set<nat> {
    set ip | ip in ips && ip in listing :: listing[ip]
  }

  lemma {:induction false} IdsOfStep(ips: seq<string>, listing: map<string, nat>, i: nat)
    requires i < |ips| && ips[i] in listing
    ensures IdsOf(ips[..i + 1], listing) == IdsOf(ips[..i], listing) + {listing[ips[i]]}
  {
    assert ips[..i + 1] == ips[..i] + [ips[i]];
  }

  method DeleteStale(
    zone: Zone, toDelete: seq<string>, listing: map<string, nat>, weather: Weather, soFar: nat)
      returns (ghost deleted: set<nat>)
    requires zone.Valid() && forall ip :: ip in toDelete ==> ip in listing
    modifies zone
    ensures zone.Valid() && zone.rules == old(zone.rules) - deleted
    ensures deleted <= IdsOf(toDelete, listing)
    ensures Fair(weather) ==> deleted == IdsOf(toDelete, listing)
  {
    deleted := {};
    var successes := soFar;
    for i := 0 to |toDelete|
      invariant zone.Valid() && zone.rules == old(zone.rules) - deleted
      invariant deleted <= IdsOf(toDelete[..i], listing)
      invariant Fair(weather) ==> deleted == IdsOf(toDelete[..i], listing)
    {
      IdsOfStep(toDelete, listing, i);
      var id := listing[toDelete[i]];
      if weather.deleteOk(id) || weather.deleteLands(id) {
        deleted := deleted + {id};
        zone.rules := zone.rules - {id};
      }
      if weather.deleteOk(id) {
        successes := successes + 1;
        if Cancelled(weather, successes) {
          assert toDelete[..i + 1] <= toDelete;
          return;
        }
      }
    }
    assert toDelete[..|toDelete|] == toDelete;
  }

  lemma {:induction false} CallsMakeACycle(lib: IpLib, eligible: set<string>, rules: Rules, listing: map<string, nat>,
    plan: SyncPlan, rules': Rules,
                        deleted: set<nat>, created: Rules)
    requires IsListing(lib, rules, listing) && IsPlan(eligible, listing.Keys, plan)
    requires created.Keys !! rules.Keys && Names(created, plan.toAdd) && deleted <= IdsOf(plan.toDelete, listing)
    requires rules' == (rules + created) - deleted
    ensures Cycle(lib, eligible, rules, rules')
    ensures deleted == IdsOf(plan.toDelete, listing) && AllCreated(created, plan.toAdd) ==>
            CleanCycle(lib, eligible, rules, rules')
  {
    assert forall ip :: ip in plan.toAdd <==> ip in Elements(plan.toAdd);
    assert forall ip :: ip in plan.toDelete <==> ip in Elements(plan.toDelete);
    assert IdsOf(plan.toDelete, listing) == set ip | ip in listing && ip !in eligible :: listing[ip];
    assert rules' == (rules - deleted) + created;
    assert Outcome(lib, eligible, rules, listing, rules', deleted, created);
    if deleted == IdsOf(plan.toDelete, listing) && AllCreated(created, plan.toAdd) {
      assert Complete(eligible, listing, deleted, created);
    }
  }

  /** `syncCloudflare` past its two listings: every cycle is a `Cycle`, and a failure-free one a `CleanCycle`. */
  method SyncCloudflare(lib: IpLib, inputs: Inputs, zone: Zone, weather: Weather)
    requires zone.Valid() && Normalizing(lib)
    modifies zone
    ensures zone.Valid()
    ensures Cycle(lib, Eligible(lib, inputs), old(zone.rules), zone.rules)
    ensures Fair(weather) ==> CleanCycle(lib, Eligible(lib, inputs), old(zone.rules), zone.rules)
    ensures forall id :: id in old(zone.rules) && old(zone.rules)[id].note != "crowdsec-local-ban" ==>
              id in zone.rules && zone.rules[id] == old(zone.rules)[id]
    ensures AddsFirst(lib, Eligible(lib, inputs), old(zone.rules), zone.rules, weather)
  {
    var listing := ListByTag(lib, zone.rules);
    var plan := BuildSyncPlan(lib, inputs, listing.Keys);
    ghost var before := zone.rules;
    var successes, done, created := AddMissing(zone, plan.toAdd, weather);
    ghost var deleted: set<nat> := {};
    if done {
      assert forall ip :: ip in plan.toDelete ==> ip in Elements(plan.toDelete);
      deleted := DeleteStale(zone, plan.toDelete, listing, weather, successes);
    }
    CallsMakeACycle(lib, Eligible(lib, inputs), before, listing, plan, zone.rules, deleted, created);
    AddedFirst(lib, Eligible(lib, inputs), before, listing, plan, zone.rules, deleted, created, weather);
    forall id | id in before && before[id].note != "crowdsec-local-ban"
      ensures id in zone.rules && zone.rules[id] == before[id] {
      ForeignRulesStay(lib, Eligible(lib, inputs), before, zone.rules, id);
    }
  }

  /** Nothing is deleted before every missing address was tried: when a rule is gone, every eligible address whose call
      succeeds had a rule before or has a new one. */
  ghost predicate AddsFirst(lib: IpLib, eligible: set<string>, rules: Rules, rules': Rules, weather: Weather) {
    (exists id :: id in rules && id !in rules') ==>
      forall ip :: ip in eligible && weather.addOk(ip) ==>
        || (exists id :: id in rules && TaggedFor(lib, rules[id], ip))
        || (exists id :: id in rules' && rules'[id] == Rule(ip, "crowdsec-local-ban"))
  }

  lemma {:induction false} AddedFirst(
    lib: IpLib, eligible: set<string>, rules: Rules, listing: map<string, nat>, plan: SyncPlan, rules': Rules,
    deleted: set<nat>, created: Rules, weather: Weather)
    requires IsListing(lib, rules, listing) && IsPlan(eligible, listing.Keys, plan)
    requires created.Keys !! rules.Keys && Names(created, plan.toAdd) && deleted <= IdsOf(plan.toDelete, listing)
    requires rules' == (rules + created) - deleted && (deleted == {} || AllTried(created, plan.toAdd, weather))
    ensures AddsFirst(lib, eligible, rules, rules', weather)
  {
    if exists id :: id in rules && id !in rules' {
      forall ip | ip in eligible && weather.addOk(ip)
        ensures || (exists id :: id in rules && TaggedFor(lib, rules[id], ip))
                || (exists id :: id in rules' && rules'[id] == Rule(ip, "crowdsec-local-ban")) {
        ListingExactly(lib, rules, listing, ip);
        if ip !in listing {
          assert ip in Elements(plan.toAdd);
          var id :| id in created && created[id].value == ip;
          assert rules'[id] == Rule(ip, "crowdsec-local-ban");
        }
      }
    }
  }

  // ---------------------------------------------------------------- cleanup

  /** `CleanupApp` keeps rules for every ban, unreadable ones by their text, and does not filter. */
  ghost function CleanupBans(lib: IpLib, bans: seq<string>): set<string> { set b | b in bans :: Norm(lib, b) }

  lemma {:induction false} AppendDistinct<T>(s: seq<T>, x: T)
    requires Distinct(s) && x !in Elements(s)
    ensures Distinct(s + [x]) && Elements(s + [x]) == Elements(s) + {x}
  {
    AppendElement(s, x);
    assert forall i :: 0 <= i < |s| ==> s[i] in Elements(s);
  }

  /** The addresses seen so far, split by whether they are banned. */
  ghost predicate Split(kept: seq<string>, stale: seq<string>, seen: set<string>, bans: set<string>) {
    && Distinct(kept) && Elements(kept) == seen * bans
    && Distinct(stale) && Elements(stale) == seen - bans
    && |kept| + |stale| == |seen|
  }

  lemma {:induction false} SplitStep(
    kept: seq<string>, stale: seq<string>, seen: set<string>, bans: set<string>, ip: string)
    requires Split(kept, stale, seen, bans) && ip !in seen
    ensures ip in bans ==> Split(kept + [ip], stale, seen + {ip}, bans)
    ensures ip !in bans ==> Split(kept, stale + [ip], seen + {ip}, bans)
  {
    AppendDistinct(kept, ip);
    AppendDistinct(stale, ip);
  }

  method BuildCleanupPlan(bans: set<string>, listing: map<string, nat>) returns (kept: seq<string>, stale: seq<string>)
    ensures Elements(kept) == listing.Keys * bans && Elements(stale) == listing.Keys - bans
    ensures Distinct(kept) && Distinct(stale) && |kept| + |stale| == |listing|
  {
    kept, stale := [], [];
    var todo := listing.Keys;
    while todo != {}
      invariant todo <= listing.Keys && Split(kept, stale, listing.Keys - todo, bans)
      decreases |todo|
    {
      var ip :| ip in todo;
      SplitStep(kept, stale, listing.Keys - todo, bans, ip);
      assert listing.Keys - (todo - {ip}) == listing.Keys - todo + {ip};
      todo := todo - {ip};
      if ip in bans { kept := kept + [ip]; } else { stale := stale + [ip]; }
    }
    assert listing.Keys - todo == listing.Keys && |listing.Keys| == |listing|;
  }

  /** Cleanup keeps the rules of what some ban reads as, or is when it cannot be read as an address. */
  lemma {:induction false} CleanupExactly(lib: IpLib, bans: seq<string>, ip: string)
    ensures ip in CleanupBans(lib, bans) <==>
            exists b :: b in bans && (lib.parseIP(b) == Some(ip) || (lib.parseIP(b).None? && b == ip))
  {
    if ip in CleanupBans(lib, bans) {
      var b :| b in bans && Norm(lib, b) == ip;
    }
    if b :| b in bans && (lib.parseIP(b) == Some(ip) || (lib.parseIP(b).None? && b == ip)) {
      assert Norm(lib, b) == ip;
    }
  }

  /** Cleanup deletes no rule that the sync loop would keep. */
  lemma {:induction false} CleanupDeletesLess(lib: IpLib, inputs: Inputs)
    ensures Eligible(lib, inputs) <= CleanupBans(lib, inputs.bans)
  {
    forall ip | ip in Eligible(lib, inputs) ensures ip in CleanupBans(lib, inputs.bans) {
      var b :| b in inputs.bans && lib.parseIP(b) == Some(ip);
      assert Norm(lib, b) == ip;
    }
  }
}
