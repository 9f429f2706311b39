/**
 `trustednetworks.Registry.Sync`: one registry pushed additively to two spokes that must not influence each other, and
 `crowdSecStatusFromReport`.
 */
module TrustedNetworks {
  import opened Orders

  const NOTE_PREFIX := "cf-sync:trusted:"

  datatype Entry = Entry(value: string, name: string)

  /** An allowlist entry or whitelist rule on a spoke. */
  datatype Remote = Remote(value: string, comment: string)

  datatype Kind = CrowdSec | Cloudflare

  datatype Mode = Shadow | Enforce

  /** `EffectiveMode`: only the literal "enforce" enables mutation. */
  function EffectiveMode(configured: string): Mode { if configured == "enforce" then Enforce else Shadow }

  function TagComment(e: Entry): string { NOTE_PREFIX + if e.name == "" then e.value else e.name }

  predicate Tagged(r: Remote) { NOTE_PREFIX <= r.comment }

  /** What a spoke's list call returns: the whole CrowdSec allowlist, but only our own Cloudflare rules. */
  predicate Shown(kind: Kind, r: Remote) { kind == CrowdSec || Tagged(r) }

  /** How the calls of one pass go: the listing, and the push of each registry entry. */
  datatype Calls = Calls(listOk: bool, pushOk: nat -> bool)

  datatype SpokeResult = SpokeResult(
    enabled: bool,
    pushed: seq<string>,
    alreadySynced: seq<string>,
    drift: multiset<string>,   // reported in no particular order
    errors: seq<string>)

  const DISABLED := SpokeResult(false, [], [], multiset{}, [])

  ghost function ShownValues(kind: Kind, remote: seq<Remote>): set<string> {
    set r | r in remote && Shown(kind, r) :: r.value
  }

  ghost function RegistryValues(entries: seq<Entry>): set<string> { set e | e in entries :: e.value }

  /** A remote entry that is ours according to its tag, but not in the registry. */
  ghost predicate Drifts(registry: set<string>, r: Remote) { Tagged(r) && r.value !in registry }

  ghost function DriftValues(remote: seq<Remote>, registry: set<string>): set<string> {
    set r | r in remote && Drifts(registry, r) :: r.value
  }

  ghost function DriftRules(remote: seq<Remote>, registry: set<string>): multiset<string> {
    if remote == [] then multiset{}
    else
      var last := remote[|remote| - 1];
      DriftRules(remote[..|remote| - 1], registry) + if Drifts(registry, last) then multiset{last.value} else multiset{}
  }

  /** CrowdSec drift is reported once per value, Cloudflare drift once per rule. */
  ghost function DriftOf(kind: Kind, remote: seq<Remote>, entries: seq<Entry>): multiset<string> {
    match kind
    case CrowdSec => multiset(DriftValues(remote, RegistryValues(entries)))
    case Cloudflare => DriftRules(remote, RegistryValues(entries))
  }

  lemma {:induction false} DriftRulesMembers(remote: seq<Remote>, registry: set<string>, v: string)
    ensures v in DriftRules(remote, registry) <==> exists r :: r in remote && Drifts(registry, r) && r.value == v
    ensures |DriftRules(remote, registry)| <= |remote|
  {
    if remote != [] {
      var front, last := remote[..|remote| - 1], remote[|remote| - 1];
      DriftRulesMembers(front, registry, v);
      assert remote == front + [last];
      assert last in remote && forall r :: r in front ==> r in remote;
    }
  }

  /** On either spoke exactly the tagged values outside the registry drift. */
  lemma {:induction false} DriftMeans(kind: Kind, remote: seq<Remote>, entries: seq<Entry>, v: string)
    ensures v in DriftOf(kind, remote, entries) <==>
            && (forall e :: e in entries ==> e.value != v)
            && exists r :: r in remote && "cf-sync:trusted:" <= r.comment && r.value == v
    ensures kind == CrowdSec ==> DriftOf(kind, remote, entries)[v] <= 1
  {
    var registry := RegistryValues(entries);
    DriftRulesMembers(remote, registry, v);
    if r :| r in remote && Tagged(r) && r.value == v && v !in registry { assert Drifts(registry, r); }
  }

  ghost function DriftingOf(entries: seq<Entry>): Remote -> Option<string> {
    (r: Remote) =>
      if "cf-sync:trusted:" <= r.comment && (forall e :: e in entries ==> e.value != r.value) then Some(r.value)
      else None
  }

  /** On Cloudflare drift is counted rule by rule. */
  lemma {:induction false} DriftPerRule(remote: seq<Remote>, entries: seq<Entry>)
    ensures DriftOf(Cloudflare, remote, entries) == multiset(Collect(DriftingOf(entries), remote))
  {
    if remote != [] {
      var n := |remote| - 1;
      DriftPerRule(remote[..n], entries);
      assert Drifts(RegistryValues(entries), remote[n]) <==> DriftingOf(entries)(remote[n]).Some?;
    }
  }

  // ---------------------------------------------------------------- one spoke, one pass

  datatype Progress = Progress(remote: seq<Remote>, pushed: seq<string>, already: seq<string>, errors: seq<string>)

  function PushOne(mode: Mode, present: set<string>, calls: Calls, i: nat, e: Entry, p: Progress): Progress {
    if e.value in present then p.(already := p.already + [e.value])
    else if mode != Enforce then p
    else if !calls.pushOk(i) then p.(errors := p.errors + [e.value])
    else p.(remote := p.remote + [Remote(e.value, TagComment(e))], pushed := p.pushed + [e.value])
  }

  function PushAll(mode: Mode, present: set<string>, calls: Calls, entries: seq<Entry>, start: seq<Remote>): Progress {
    if entries == [] then Progress(start, [], [], [])
    else
      var n := |entries| - 1;
      PushOne(mode, present, calls, n, entries[n], PushAll(mode, present, calls, entries[..n], start))
  }

  datatype Pass = Pass(remote: seq<Remote>, result: SpokeResult)

  /** `syncCrowdSec` and `syncCloudflare`: the new spoke state and the report, from this spoke's own inputs. */
  ghost function SpokePass(kind: Kind, mode: Mode, entries: seq<Entry>, remote: seq<Remote>, calls: Calls): Pass {
    if !calls.listOk then Pass(remote, SpokeResult(true, [], [], multiset{}, ["list failed"]))
    else
      var p := PushAll(mode, ShownValues(kind, remote), calls, entries, remote);
      Pass(p.remote, SpokeResult(true, p.pushed, p.already, DriftOf(kind, remote, entries), p.errors))
  }

  // ---------------------------------------------------------------- a pass, exactly

  /** An entry with its place in the registry, by which its push is known. */
  datatype Numbered = Numbered(i: nat, entry: Entry)

  function NumberedOf(entries: seq<Entry>): seq<Numbered> {
    seq(|entries|, i requires 0 <= i < |entries| => Numbered(i, entries[i]))
  }

  /** The spoke's listing shows the value: on CrowdSec any entry counts, on Cloudflare only rules with our prefix. */
  ghost predicate Lists(kind: Kind, remote: seq<Remote>, value: string) {
    exists r :: r in remote && r.value == value && (kind == CrowdSec || "cf-sync:trusted:" <= r.comment)
  }

  ghost function ListedOf(kind: Kind, remote: seq<Remote>): Numbered -> Option<string> {
    (n: Numbered) => if Lists(kind, remote, n.entry.value) then Some(n.entry.value) else None
  }

  /** The entries an enforce pass has to push, by whether the push goes as `ok` says. */
  ghost function MissingOf(kind: Kind, remote: seq<Remote>, calls: Calls, ok: bool): Numbered -> Option<string> {
    (n: Numbered) =>
      if !Lists(kind, remote, n.entry.value) && calls.pushOk(n.i) == ok then Some(n.entry.value) else None
  }

  ghost function PushOf(kind: Kind, remote: seq<Remote>, calls: Calls): Numbered -> Option<Remote> {
    (n: Numbered) =>
      var e := n.entry;
      if Lists(kind, remote, e.value) || !calls.pushOk(n.i) then None
      else Some(Remote(e.value, "cf-sync:trusted:" + if e.name == "" then e.value else e.name))
  }

  lemma {:induction false} ShownMeansListed(kind: Kind, remote: seq<Remote>, value: string)
    ensures value in ShownValues(kind, remote) <==> Lists(kind, remote, value)
  {
  }

  lemma {:induction false} NumberedSnoc(entries: seq<Entry>, e: Entry)
    ensures NumberedOf(entries + [e]) == NumberedOf(entries) + [Numbered(|entries|, e)]
  {
  }

  lemma {:induction false} CollectSnoc<T, U>(f: T -> Option<U>, s: seq<T>, x: T)
    ensures Collect(f, s + [x]) == Collect(f, s) + Kept(f(x))
  {
    assert (s + [x])[..|s|] == s;
  }

  /** What the pushes so far amount to. */
  ghost predicate PushedAs(
    kind: Kind, mode: Mode, calls: Calls, all: seq<Numbered>, remote: seq<Remote>, p: Progress) {
    && p.already == Collect(ListedOf(kind, remote), all)
    && (mode == Enforce ==>
        && p.pushed == Collect(MissingOf(kind, remote, calls, true), all)
        && p.errors == Collect(MissingOf(kind, remote, calls, false), all)
        && p.remote == remote + Collect(PushOf(kind, remote, calls), all))
    && (mode == Shadow ==> p.pushed == [] && p.errors == [] && p.remote == remote)
  }

  lemma {:induction false} PushesExactly(
    kind: Kind, mode: Mode, calls: Calls, entries: seq<Entry>, remote: seq<Remote>)
    ensures PushedAs(kind, mode, calls, NumberedOf(entries), remote,
                     PushAll(mode, ShownValues(kind, remote), calls, entries, remote))
  {
    if entries == [] {
      assert remote + [] == remote;
    } else {
      var n := |entries| - 1;
      PushesExactly(kind, mode, calls, entries[..n], remote);
      NumberedSnoc(entries[..n], entries[n]);
      assert entries == entries[..n] + [entries[n]];
      OneMorePush(kind, mode, calls, NumberedOf(entries[..n]), n, entries[n], remote,
                  PushAll(mode, ShownValues(kind, remote), calls, entries[..n], remote));
    }
  }

  lemma {:induction false} OneMorePush(
    kind: Kind, mode: Mode, calls: Calls, all: seq<Numbered>, i: nat, e: Entry, remote: seq<Remote>, p: Progress)
    requires PushedAs(kind, mode, calls, all, remote, p)
    ensures PushedAs(kind, mode, calls, all + [Numbered(i, e)], remote,
                     PushOne(mode, ShownValues(kind, remote), calls, i, e, p))
  {
    var n := Numbered(i, e);
    OnePushExactly(kind, mode, calls, i, e, remote, p);
    CollectSnoc(ListedOf(kind, remote), all, n);
    CollectSnoc(MissingOf(kind, remote, calls, true), all, n);
    CollectSnoc(MissingOf(kind, remote, calls, false), all, n);
    CollectSnoc(PushOf(kind, remote, calls), all, n);
    Regroup(remote, Collect(PushOf(kind, remote, calls), all), Kept(PushOf(kind, remote, calls)(n)));
  }

  lemma {:induction false} Regroup<T>(a: seq<T>, b: seq<T>, c: seq<T>)
    ensures a + b + c == a + (b + c)
  {
  }

  lemma {:induction false} OnePushExactly(
    kind: Kind, mode: Mode, calls: Calls, i: nat, e: Entry, remote: seq<Remote>, p: Progress)
    ensures var q, n := PushOne(mode, ShownValues(kind, remote), calls, i, e, p), Numbered(i, e);
            && q.already == p.already + Kept(ListedOf(kind, remote)(n))
            && (mode == Enforce ==>
                && q.pushed == p.pushed + Kept(MissingOf(kind, remote, calls, true)(n))
                && q.errors == p.errors + Kept(MissingOf(kind, remote, calls, false)(n))
                && q.remote == p.remote + Kept(PushOf(kind, remote, calls)(n)))
            && (mode == Shadow ==> q.pushed == p.pushed && q.errors == p.errors && q.remote == p.remote)
  {
    ShownMeansListed(kind, remote, e.value);
  }

  /**
   What a pass reports and leaves, exactly and in the order of the registry: an entry the listing shows is already
   synced; in enforce mode every other one is pushed, under our prefix and its name or else its value, or is an error.
   A failed listing leaves the spoke alone.
   */
  lemma {:induction false} PassExactly(
    kind: Kind, mode: Mode, entries: seq<Entry>, remote: seq<Remote>, calls: Calls)
    ensures var pass, all := SpokePass(kind, mode, entries, remote, calls), NumberedOf(entries);
            var r := pass.result;
            && r.enabled
            && (!calls.listOk ==> pass == Pass(remote, SpokeResult(true, [], [], multiset{}, ["list failed"])))
            && (calls.listOk ==> r.alreadySynced == Collect(ListedOf(kind, remote), all))
            && (calls.listOk && mode == Enforce ==>
                && r.pushed == Collect(MissingOf(kind, remote, calls, true), all)
                && r.errors == Collect(MissingOf(kind, remote, calls, false), all)
                && pass.remote == remote + Collect(PushOf(kind, remote, calls), all))
            && (calls.listOk && mode == Shadow ==> r.pushed == [] && r.errors == [] && pass.remote == remote)
  {
    PushesExactly(kind, mode, calls, entries, remote);
  }

  // ---------------------------------------------------------------- what a pass keeps

  /** What the pushes of one pass leave behind, from the spoke as it was. */
  ghost predicate PushOutcome(mode: Mode, present: set<string>, entries: seq<Entry>, start: seq<Remote>, p: Progress) {
    && start <= p.remote
    && (mode == Shadow ==> p.remote == start && p.pushed == [] && p.errors == [])
    && (mode == Enforce ==> |p.already| + |p.pushed| + |p.errors| == |entries|)
    && (forall r :: r in p.remote[|start|..] ==> Tagged(r) && r.value in RegistryValues(entries))
    && (mode == Enforce && p.errors == [] ==> forall e :: e in entries ==>
       e.value in present || Holds(p.remote, e.value))
  }

  ghost predicate Holds(remote: seq<Remote>, value: string) { exists r :: r in remote && Tagged(r) && r.value == value }

  lemma {:induction false} HoldsStays(remote: seq<Remote>, more: seq<Remote>, value: string)
    requires Holds(remote, value) && remote <= more
    ensures Holds(more, value)
  {
    var r :| r in remote && Tagged(r) && r.value == value;
    assert r in more;
  }

  lemma {:induction false} PushStep(
    mode: Mode, present: set<string>, calls: Calls, i: nat, front: seq<Entry>, e: Entry, start: seq<Remote>,
    q: Progress)
    requires PushOutcome(mode, present, front, start, q)
    ensures PushOutcome(mode, present, front + [e], start, PushOne(mode, present, calls, i, e, q))
  {
    var p := PushOne(mode, present, calls, i, e, q);
    var entries := front + [e];
    assert RegistryValues(entries) == RegistryValues(front) + {e.value} by {
      assert forall x :: x in entries <==> x in front || x == e;
    }
    var pushed := Remote(e.value, TagComment(e));
    if p.remote != q.remote {
      assert p.remote[|start|..] == q.remote[|start|..] + [pushed];
      assert pushed in p.remote;
    }
    if mode == Enforce && p.errors == [] {
      forall x | x in entries ensures x.value in present || Holds(p.remote, x.value) {
        if x in front && x.value !in present { HoldsStays(q.remote, p.remote, x.value); }
      }
    }
  }

  lemma {:induction false} PushFacts(
    mode: Mode, present: set<string>, calls: Calls, entries: seq<Entry>, start: seq<Remote>)
    ensures PushOutcome(mode, present, entries, start, PushAll(mode, present, calls, entries, start))
  {
    if entries != [] {
      var n := |entries| - 1;
      PushFacts(mode, present, calls, entries[..n], start);
      PushStep(mode, present, calls, n, entries[..n], entries[n], start,
        PushAll(mode, present, calls, entries[..n], start));
      assert entries == entries[..n] + [entries[n]];
    }
  }

  /** Nothing on a spoke is ever removed, and what is added is tagged and comes from the registry. */
  lemma {:induction false} PassIsAdditive(
    kind: Kind, mode: Mode, entries: seq<Entry>, remote: seq<Remote>, calls: Calls)
    ensures var after := SpokePass(kind, mode, entries, remote, calls).remote;
            && remote <= after
            && forall r :: r in after[|remote|..] ==>
                 "cf-sync:trusted:" <= r.comment && exists e :: e in entries && e.value == r.value
  {
    PushFacts(mode, ShownValues(kind, remote), calls, entries, remote);
  }

  /** Shadow mode changes nothing and pushes nothing. */
  lemma {:induction false} ShadowOnlyLooks(kind: Kind, entries: seq<Entry>, remote: seq<Remote>, calls: Calls)
    ensures var pass := SpokePass(kind, Shadow, entries, remote, calls);
            pass.remote == remote && pass.result.pushed == []
  {
    PushFacts(Shadow, ShownValues(kind, remote), calls, entries, remote);
  }

  /** Every registry entry of an enforce pass is accounted for once. */
  lemma {:induction false} EntriesAreConserved(kind: Kind, entries: seq<Entry>, remote: seq<Remote>, calls: Calls)
    requires calls.listOk
    ensures var r := SpokePass(kind, Enforce, entries, remote, calls).result;
            |r.alreadySynced| + |r.pushed| + |r.errors| == |entries|
  {
    PushFacts(Enforce, ShownValues(kind, remote), calls, entries, remote);
  }

  lemma {:induction false} ShownGrows(kind: Kind, remote: seq<Remote>, after: seq<Remote>)
    requires remote <= after
    ensures ShownValues(kind, remote) <= ShownValues(kind, after)
  {
    forall v | v in ShownValues(kind, remote) ensures v in ShownValues(kind, after) {
      var r :| r in remote && Shown(kind, r) && r.value == v;
      assert r in after;
    }
  }

  /** After an enforce pass without errors the registry is contained in what the spoke shows. */
  lemma {:induction false} CleanPassCovers(kind: Kind, entries: seq<Entry>, remote: seq<Remote>, calls: Calls)
    requires SpokePass(kind, Enforce, entries, remote, calls).result.errors == []
    ensures RegistryValues(entries) <= ShownValues(kind, SpokePass(kind, Enforce, entries, remote, calls).remote)
  {
    var present := ShownValues(kind, remote);
    var after := SpokePass(kind, Enforce, entries, remote, calls).remote;
    PushFacts(Enforce, present, calls, entries, remote);
    ShownGrows(kind, remote, after);
    forall e | e in entries ensures e.value in ShownValues(kind, after) {
      if e.value !in present {
        var r :| r in after && Tagged(r) && r.value == e.value;
        assert Shown(kind, r);
      }
    }
  }

  lemma {:induction false} NothingMissing(
    mode: Mode, present: set<string>, calls: Calls, entries: seq<Entry>, start: seq<Remote>)
    requires RegistryValues(entries) <= present
    ensures var p := PushAll(mode, present, calls, entries, start);
            p.remote == start && p.pushed == [] && p.errors == [] && |p.already| == |entries|
  {
    if entries != [] {
      var n := |entries| - 1;
      assert entries == entries[..n] + [entries[n]];
      assert RegistryValues(entries[..n]) <= RegistryValues(entries);
      NothingMissing(mode, present, calls, entries[..n], start);
      assert entries[n].value in RegistryValues(entries);
    }
  }

  /** A covered spoke stays as it is, whatever the mode and however the calls go. */
  lemma {:induction false} CoveredIsFixed(
    kind: Kind, mode: Mode, entries: seq<Entry>, remote: seq<Remote>, calls: Calls)
    requires RegistryValues(entries) <= ShownValues(kind, remote)
    ensures var pass := SpokePass(kind, mode, entries, remote, calls);
            && pass.remote == remote && pass.result.pushed == []
            && (calls.listOk ==> pass.result.errors == [] && |pass.result.alreadySynced| == |entries|)
  {
    NothingMissing(mode, ShownValues(kind, remote), calls, entries, remote);
  }

  // ---------------------------------------------------------------- runs of one spoke

  /** A pass over the spoke: the registry as it was loaded then, the mode, and how the calls go. */
  datatype Turn = Turn(entries: seq<Entry>, mode: Mode, calls: Calls)

  ghost function RemoteAfter(kind: Kind, remote: seq<Remote>, turns: seq<Turn>): seq<Remote> {
    if turns == [] then remote
    else
      var last := turns[|turns| - 1];
      SpokePass(kind, last.mode, last.entries, RemoteAfter(kind, remote, turns[..|turns| - 1]), last.calls).remote
  }

  /** Once one enforce pass went through without errors, no later pass whose registry holds no new value changes the
      spoke: not a retry, not a failing one, not one after entries were taken out of the registry. */
  lemma {:induction false} CleanPassSettles(
    kind: Kind, entries: seq<Entry>, remote: seq<Remote>, calls: Calls, turns: seq<Turn>)
    requires SpokePass(kind, Enforce, entries, remote, calls).result.errors == []
    requires forall i :: 0 <= i < |turns| ==> RegistryValues(turns[i].entries) <= RegistryValues(entries)
    ensures var settled := SpokePass(kind, Enforce, entries, remote, calls).remote;
            RemoteAfter(kind, settled, turns) == settled
  {
    CleanPassCovers(kind, entries, remote, calls);
    if turns != [] {
      var n := |turns| - 1;
      CleanPassSettles(kind, entries, remote, calls, turns[..n]);
      var settled := SpokePass(kind, Enforce, entries, remote, calls).remote;
      CoveredIsFixed(kind, turns[n].mode, turns[n].entries, settled, turns[n].calls);
    }
  }

  /** Over any run, with a changing registry, any failures and mode changes, nothing disappears from a spoke. */
  lemma {:induction false} NothingDisappears(kind: Kind, remote: seq<Remote>, turns: seq<Turn>)
    ensures remote <= RemoteAfter(kind, remote, turns)
  {
    if turns != [] {
      var n := |turns| - 1;
      NothingDisappears(kind, remote, turns[..n]);
      PassIsAdditive(kind, turns[n].mode, turns[n].entries, RemoteAfter(kind, remote, turns[..n]), turns[n].calls);
    }
  }

  /** And whatever appeared is tagged and was in the registry of some turn. */
  lemma {:induction false} OnlyRegistryAppears(kind: Kind, remote: seq<Remote>, turns: seq<Turn>, r: Remote)
    requires r in RemoteAfter(kind, remote, turns) && r !in remote
    ensures "cf-sync:trusted:" <= r.comment
    ensures exists i :: 0 <= i < |turns| && r.value in RegistryValues(turns[i].entries)
  {
    if turns != [] {
      var n := |turns| - 1;
      var before := RemoteAfter(kind, remote, turns[..n]);
      if r in before {
        OnlyRegistryAppears(kind, remote, turns[..n], r);
        var i :| 0 <= i < n && r.value in RegistryValues(turns[..n][i].entries);
        assert turns[i] == turns[..n][i];
      } else {
        var after := RemoteAfter(kind, remote, turns);
        PassIsAdditive(kind, turns[n].mode, turns[n].entries, before, turns[n].calls);
        assert after == before + after[|before|..];
        assert r in after[|before|..];
      }
    }
  }

  // ---------------------------------------------------------------- status

  datatype Report = Report(mode: Mode, registryCount: nat, crowdSec: SpokeResult, cloudflare: SpokeResult)

  datatype AllowlistStatus = AllowlistStatus(authOk: bool, desiredCount: nat, currentCount: nat, driftCount: nat,
    mode: Mode)

  function CrowdSecStatus(report: Report): AllowlistStatus {
    var r := report.crowdSec;
    AllowlistStatus(r.enabled && r.errors == [], report.registryCount, |r.alreadySynced| + |r.pushed|, |r.drift|,
      report.mode)
  }

  /** What the status shows: the registry's size, the entries that are on the spoke after the pass, and the values under
      our prefix that are not in the registry. */
  lemma {:induction false} StatusTells(
    mode: Mode, entries: seq<Entry>, remote: seq<Remote>, calls: Calls, report: Report)
    requires report.crowdSec == SpokePass(CrowdSec, mode, entries, remote, calls).result && calls.listOk
    requires report.registryCount == |entries| && report.mode == mode
    ensures var status, all := CrowdSecStatus(report), NumberedOf(entries);
            && status.desiredCount == |entries| && status.mode == mode
            && status.currentCount ==
               |Collect(ListedOf(CrowdSec, remote), all)| +
               (if mode == Enforce then |Collect(MissingOf(CrowdSec, remote, calls, true), all)| else 0)
            && status.driftCount ==
               |set r | r in remote && "cf-sync:trusted:" <= r.comment
                        && (forall e :: e in entries ==> e.value != r.value) :: r.value|
  {
    PassExactly(CrowdSec, mode, entries, remote, calls);
    var drift := set r | r in remote && "cf-sync:trusted:" <= r.comment
                         && (forall e :: e in entries ==> e.value != r.value) :: r.value;
    assert drift == DriftValues(remote, RegistryValues(entries));
  }

  /** In enforce mode the counts agree exactly when every call of the pass succeeded, or there was nothing to do. */
  lemma {:induction false} CountsAgree(entries: seq<Entry>, remote: seq<Remote>, calls: Calls, report: Report)
    requires report.crowdSec == SpokePass(CrowdSec, Enforce, entries, remote, calls).result
             && report.registryCount == |entries|
    ensures CrowdSecStatus(report).authOk ==> CrowdSecStatus(report).currentCount == CrowdSecStatus(report).desiredCount
    ensures calls.listOk && CrowdSecStatus(report).currentCount == CrowdSecStatus(report).desiredCount ==>
            CrowdSecStatus(report).authOk
  {
    if calls.listOk { EntriesAreConserved(CrowdSec, entries, remote, calls); }
  }

  ghost predicate SomePushFails(kind: Kind, mode: Mode, entries: seq<Entry>, remote: seq<Remote>, calls: Calls) {
    mode == Enforce &&
    exists i :: 0 <= i < |entries| && entries[i].value !in ShownValues(kind, remote) && !calls.pushOk(i)
  }

  lemma {:induction false} ErrorsExactly(
    mode: Mode, present: set<string>, calls: Calls, entries: seq<Entry>, start: seq<Remote>)
    ensures PushAll(mode, present, calls, entries, start).errors == [] <==>
            !(mode == Enforce && exists i :: 0 <= i < |entries| && entries[i].value !in present && !calls.pushOk(i))
  {
    if entries != [] {
      var n := |entries| - 1;
      var front := entries[..n];
      ErrorsExactly(mode, present, calls, front, start);
      assert forall i :: 0 <= i < n ==> front[i] == entries[i];
    }
  }

  /** `AuthOK` is documented as "the list call succeeded"; the code also clears it when a push fails. */
  lemma {:induction false} AuthOkExactly(
    mode: Mode, entries: seq<Entry>, remote: seq<Remote>, calls: Calls, report: Report)
    requires report.crowdSec == SpokePass(CrowdSec, mode, entries, remote, calls).result
    ensures CrowdSecStatus(report).authOk <==> calls.listOk && !SomePushFails(CrowdSec, mode, entries, remote, calls)
  {
    ErrorsExactly(mode, ShownValues(CrowdSec, remote), calls, entries, remote);
  }

  /** One entry, an empty spoke, a listing that works and a push that fails: `AuthOK` is false. */
  lemma {:induction false} FailedPushClearsAuthOk(e: Entry, report: Report)
    requires var calls := Calls(true, i => false);
             report.crowdSec == SpokePass(CrowdSec, Enforce, [e], [], calls).result
    ensures !CrowdSecStatus(report).authOk
  {
    var calls := Calls(true, i => false);
    assert [e][0].value !in ShownValues(CrowdSec, []) && !calls.pushOk(0);
    AuthOkExactly(Enforce, [e], [], calls, report);
  }

  // ---------------------------------------------------------------- the hub

  class Registry {
    var crowdSecRemote: seq<Remote>
    var cloudflareRemote: seq<Remote>

    constructor (crowdSec: seq<Remote>, cloudflare: seq<Remote>)
      ensures crowdSecRemote == crowdSec && cloudflareRemote == cloudflare
    {
      crowdSecRemote, cloudflareRemote := crowdSec, cloudflare;
    }

    /** `Sync`.  Each spoke ends as a function of the registry, the mode, its own prior state and its own calls; a
        registry that failed to load touches neither. */
    method Sync(configured: string, loaded: Option<seq<Entry>>, crowdSec: Option<Calls>, cloudflare: Option<Calls>)
      returns (report: Option<Report>)
      modifies this
      ensures report.None? <==> loaded.None?
      ensures loaded.None? ==> crowdSecRemote == old(crowdSecRemote) && cloudflareRemote == old(cloudflareRemote)
      ensures loaded.Some? && crowdSec.Some? ==>
                Pass(crowdSecRemote, report.value.crowdSec)
                == SpokePass(CrowdSec, if configured == "enforce" then Enforce else Shadow, loaded.value,
                  old(crowdSecRemote), crowdSec.value)
      ensures loaded.Some? && cloudflare.Some? ==>
                Pass(cloudflareRemote, report.value.cloudflare)
                == SpokePass(Cloudflare, if configured == "enforce" then Enforce else Shadow, loaded.value,
                  old(cloudflareRemote), cloudflare.value)
      ensures crowdSec.None? ==> crowdSecRemote == old(crowdSecRemote)
      ensures cloudflare.None? ==> cloudflareRemote == old(cloudflareRemote)
      ensures loaded.Some? && crowdSec.None? ==> report.value.crowdSec == SpokeResult(false, [], [], multiset{}, [])
      ensures loaded.Some? && cloudflare.None? ==> report.value.cloudflare == SpokeResult(false, [], [], multiset{}, [])
      ensures loaded.Some? ==>
                && report.value.registryCount == |loaded.value|
                && report.value.mode == if configured == "enforce" then Enforce else Shadow
      ensures configured != "enforce" ==>
                crowdSecRemote == old(crowdSecRemote) && cloudflareRemote == old(cloudflareRemote)
    {
      if loaded.None? { return None; }
      if crowdSec.Some? { ShadowOnlyLooks(CrowdSec, loaded.value, crowdSecRemote, crowdSec.value); }
      if cloudflare.Some? { ShadowOnlyLooks(Cloudflare, loaded.value, cloudflareRemote, cloudflare.value); }
      var mode, entries := EffectiveMode(configured), loaded.value;
      var a, b := DISABLED, DISABLED;
      if crowdSec.Some? { crowdSecRemote, a := SyncSpoke(CrowdSec, mode, entries, crowdSecRemote, crowdSec.value); }
      if cloudflare.Some? {
        cloudflareRemote, b := SyncSpoke(Cloudflare, mode, entries, cloudflareRemote, cloudflare.value);
      }
      report := Some(Report(mode, |entries|, a, b));
    }
  }

  method SyncSpoke(kind: Kind, mode: Mode, entries: seq<Entry>, remote: seq<Remote>, calls: Calls)
    returns (after: seq<Remote>, result: SpokeResult)
    ensures Pass(after, result) == SpokePass(kind, mode, entries, remote, calls)
  {
    if !calls.listOk { return remote, SpokeResult(true, [], [], multiset{}, ["list failed"]); }
    var present: set<string> := {};
    for i := 0 to |remote|
      invariant present == ShownValues(kind, remote[..i])
    {
      assert remote[..i + 1] == remote[..i] + [remote[i]];
      if Shown(kind, remote[i]) { present := present + {remote[i].value}; }
    }
    assert remote[..|remote|] == remote;
    var p := Progress(remote, [], [], []);
    for i := 0 to |entries|
      invariant p == PushAll(mode, present, calls, entries[..i], remote)
    {
      assert entries[..i + 1][..i] == entries[..i];
      var e := entries[i];
      if e.value in present {
        p := p.(already := p.already + [e.value]);
      } else if mode == Enforce {
        if calls.pushOk(i) {
          p := p.(remote := p.remote + [Remote(e.value, TagComment(e))], pushed := p.pushed + [e.value]);
        } else {
          p := p.(errors := p.errors + [e.value]);
        }
      }
    }
    assert entries[..|entries|] == entries;
    var drift := FindDrift(kind, entries, remote);
    after, result := p.remote, SpokeResult(true, p.pushed, p.already, drift, p.errors);
  }

  method FindDrift(kind: Kind, entries: seq<Entry>, remote: seq<Remote>) returns (drift: multiset<string>)
    ensures drift == DriftOf(kind, remote, entries)
  {
    var registry: set<string> := {};
    for i := 0 to |entries|
      invariant registry == RegistryValues(entries[..i])
    {
      assert entries[..i + 1] == entries[..i] + [entries[i]];
      registry := registry + {entries[i].value};
    }
    assert entries[..|entries|] == entries && remote[..|remote|] == remote;
    if kind == CrowdSec {
      var values: set<string> := {};
      for i := 0 to |remote|
        invariant values == DriftValues(remote[..i], registry)
      {
        assert remote[..i + 1] == remote[..i] + [remote[i]];
        if Tagged(remote[i]) && remote[i].value !in registry { values := values + {remote[i].value}; }
      }
      drift := multiset(values);
    } else {
      drift := multiset{};
      for i := 0 to |remote|
        invariant drift == DriftRules(remote[..i], registry)
      {
        assert remote[..i + 1][..i] == remote[..i];
        if Tagged(remote[i]) && remote[i].value !in registry { drift := drift + multiset{remote[i].value}; }
      }
    }
  }
}
