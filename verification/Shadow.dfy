/** Shadow mode: cycle records, their aggregates and their store. */
module Shadow {
  import opened Orders
  import BanSync

  // `Compare` turns a sync plan into a cycle record, `ComputeMetrics` aggregates records, the store appends,
  // filters and prunes them, and `recordShadowCycle` strings these together under a moving clock.  Percentages are
  // exact reals.  Times are integers in nanoseconds, 0 being Go's zero time.

  const DAY := 86_400_000_000_000
  const WEEK := 7 * DAY
  const RETENTION := 30 * DAY

  /** The three texts of `buildDriftExplanation`. */
  datatype Drift = MoreBans | MoreRules | Bidirectional

  /** One shadow record.  The planned additions and deletions are the false positives and negatives. */
  datatype Cycle = Cycle(
    at: int,
    activeBanCount: nat,
    cfRuleCount: nat,
    falsePositives: seq<string>,
    falseNegatives: seq<string>,
    agreement: real,
    inSync: bool,
    drift: Option<Drift>)

  // ---------------------------------------------------------------- Compare

  /** Jaccard similarity in per cent, two empty sets agreeing fully. */
  ghost function Jaccard(a: set<string>, b: set<string>): real {
    if a + b == {} then 100.0 else (|a * b| as real / |a + b| as real) * 100.0
  }

  ghost function CycleOf(plan: BanSync.SyncPlan, at: int): Cycle {
    Cycle(at, |plan.activeBans|, |plan.cfRules|, plan.toAdd, plan.toDelete, Jaccard(plan.activeBans, plan.cfRules),
          plan.toAdd == [] && plan.toDelete == [],
          if plan.toAdd == [] && plan.toDelete == [] then None
          else if plan.toDelete == [] then Some(MoreBans)
          else if plan.toAdd == [] then Some(MoreRules)
          else Some(Bidirectional))
  }

  method CountCommon(a: set<string>, b: set<string>) returns (n: nat)
    ensures n == |a * b|
  {
    n := 0;
    var todo := a;
    while todo != {}
      invariant todo <= a && n == |(a - todo) * b|
      decreases |todo|
    {
      var x :| x in todo;
      var rest := todo - {x};
      assert (a - rest) * b == if x in b then (a - todo) * b + {x} else (a - todo) * b;
      todo := rest;
      if x in b { n := n + 1; }
    }
    assert (a - todo) * b == a * b;
  }

  method Compare(plan: BanSync.SyncPlan, at: int) returns (c: Cycle)
    ensures c == CycleOf(plan, at)
  {
    var a, b := plan.activeBans, plan.cfRules;
    var common := CountCommon(a, b);
    var union := |a| + |b| - common;
    assert union == |a + b|;
    var agreement := 100.0;
    if union != 0 { agreement := (common as real / union as real) * 100.0; }
    var inSync := |plan.toAdd| == 0 && |plan.toDelete| == 0;
    var drift := None;
    if !inSync {
      drift := if |plan.toAdd| > 0 && |plan.toDelete| == 0 then Some(MoreBans)
               else if |plan.toDelete| > 0 && |plan.toAdd| == 0 then Some(MoreRules)
               else Some(Bidirectional);
    }
    c := Cycle(at, |a|, |b|, plan.toAdd, plan.toDelete, agreement, inSync, drift);
  }

  lemma {:induction false} RatioFacts(part: nat, whole: nat)
    requires part <= whole && whole > 0
    ensures var pct := (part as real / whole as real) * 100.0;
            0.0 <= pct <= 100.0 && (pct == 100.0 <==> part == whole) && (pct == 0.0 <==> part == 0)
  {
  }

  lemma {:induction false} EmptyDifference<T>(a: set<T>, b: set<T>)
    ensures a - b == {} <==> a <= b
  {
    if a - b == {} {
      forall x | x in a ensures x in b { assert x !in a - b; }
    }
  }

  lemma {:induction false} InSyncMeansEqual(eligible: set<string>, listed: set<string>, plan: BanSync.SyncPlan)
    requires BanSync.IsPlan(eligible, listed, plan)
    ensures plan.toAdd == [] <==> eligible <= listed
    ensures plan.toDelete == [] <==> listed <= eligible
  {
    NoElements(plan.toAdd);
    NoElements(plan.toDelete);
    EmptyDifference(eligible, listed);
    EmptyDifference(listed, eligible);
  }

  /** The drift text tells which of the two sets holds the other. */
  lemma {:induction false} DriftTellsInclusion(
    eligible: set<string>, listed: set<string>, plan: BanSync.SyncPlan, at: int)
    requires BanSync.IsPlan(eligible, listed, plan)
    ensures CycleOf(plan, at).drift == Some(MoreBans) <==> listed < eligible
    ensures CycleOf(plan, at).drift == Some(MoreRules) <==> eligible < listed
    ensures CycleOf(plan, at).drift == None <==> eligible == listed
  {
    InSyncMeansEqual(eligible, listed, plan);
  }

  /** For a plan made by `buildSyncPlan`: full agreement exactly when the record says in sync, exactly when the rules
      are the eligible bans; and no agreement exactly when nothing is shared. */
  lemma {:induction false} AgreementMeansInSync(
    eligible: set<string>, listed: set<string>, plan: BanSync.SyncPlan, at: int)
    requires BanSync.IsPlan(eligible, listed, plan)
    ensures var c := CycleOf(plan, at);
            && 0.0 <= c.agreement <= 100.0
            && (c.agreement == 100.0 <==> c.inSync)
            && (c.inSync <==> eligible == listed)
            && (c.agreement == 0.0 <==> eligible * listed == {} && eligible + listed != {})
  {
    InSyncMeansEqual(eligible, listed, plan);
    SubsetSize(eligible * listed, eligible + listed);
    if eligible + listed != {} {
      RatioFacts(|eligible * listed|, |eligible + listed|);
      if eligible * listed == eligible + listed {
        assert forall x :: x in eligible + listed ==> x in eligible * listed;
      }
    }
  }

  /** What the record of a plan says: how many bans and rules there are, which addresses are in one set and not the
      other, each once, and how much of their union the two sets share. */
  lemma {:induction false} RecordExactly(
    eligible: set<string>, listed: set<string>, plan: BanSync.SyncPlan, at: int)
    requires BanSync.IsPlan(eligible, listed, plan)
    ensures var c := CycleOf(plan, at);
            && c.at == at && c.activeBanCount == |eligible| && c.cfRuleCount == |listed|
            && Distinct(c.falsePositives) && (forall ip :: ip in c.falsePositives <==> ip in eligible && ip !in listed)
            && Distinct(c.falseNegatives) && (forall ip :: ip in c.falseNegatives <==> ip in listed && ip !in eligible)
            && (eligible + listed == {} ==> c.agreement == 100.0)
            && c.agreement * |eligible + listed| as real == 100.0 * |eligible * listed| as real
  {
    assert forall ip :: ip in plan.toAdd <==> ip in Elements(plan.toAdd);
    assert forall ip :: ip in plan.toDelete <==> ip in Elements(plan.toDelete);
    JaccardExactly(eligible, listed);
  }

  lemma {:induction false} JaccardExactly(a: set<string>, b: set<string>)
    ensures a + b == {} ==> Jaccard(a, b) == 100.0
    ensures Jaccard(a, b) * |a + b| as real == 100.0 * |a * b| as real
  {
    if a + b != {} { PercentOf(|a * b|, |a + b|); } else { assert a * b == {}; }
  }

  lemma {:induction false} PercentOf(part: nat, whole: nat)
    requires whole > 0
    ensures (part as real / whole as real) * 100.0 * whole as real == 100.0 * part as real
  {
    assert (part as real / whole as real) * whole as real == part as real;
  }

  // ---------------------------------------------------------------- aggregates

  ghost function SumOf(f: Cycle -> nat, cycles: seq<Cycle>): nat {
    if cycles == [] then 0 else SumOf(f, cycles[..|cycles| - 1]) + f(cycles[|cycles| - 1])
  }

  function FalsePositiveCount(c: Cycle): nat { |c.falsePositives| }
  function FalseNegativeCount(c: Cycle): nat { |c.falseNegatives| }
  function InSyncCount(c: Cycle): nat { if c.inSync then 1 else 0 }

  ghost function TotalAgreement(cycles: seq<Cycle>): real {
    if cycles == [] then 0.0 else TotalAgreement(cycles[..|cycles| - 1]) + cycles[|cycles| - 1].agreement
  }

  ghost function Average(cycles: seq<Cycle>): real {
    if cycles == [] then 0.0 else TotalAgreement(cycles) / |cycles| as real
  }

  /** The records at or after a time, in order. */
  ghost function Since(cycles: seq<Cycle>, since: int): seq<Cycle> {
    if cycles == [] then []
    else
      var last := cycles[|cycles| - 1];
      Since(cycles[..|cycles| - 1], since) + if last.at >= since then [last] else []
  }

  ghost predicate SyncedBetween(cycles: seq<Cycle>, i: nat, j: nat)
    requires i <= j <= |cycles|
  {
    forall k :: i <= k < j ==> cycles[k].inSync
  }

  /** Some run of `n` consecutive records is in sync, and no run is longer. */
  ghost predicate IsLongestRun(cycles: seq<Cycle>, n: nat) {
    && (exists i: nat, j: nat :: i <= j <= |cycles| && j - i == n && SyncedBetween(cycles, i, j))
    && (forall i: nat, j: nat :: i <= j <= |cycles| && SyncedBetween(cycles, i, j) ==> j - i <= n)
  }

  ghost predicate IsTrailingRun(cycles: seq<Cycle>, n: nat) {
    && n <= |cycles| && SyncedBetween(cycles, |cycles| - n, |cycles|)
    && (n < |cycles| ==> !cycles[|cycles| - n - 1].inSync)
  }

  /** The least agreement, never above 100. */
  ghost predicate IsLowest(cycles: seq<Cycle>, least: real) {
    && least <= 100.0
    && (forall i :: 0 <= i < |cycles| ==> least <= cycles[i].agreement)
    && (least == 100.0 || exists i :: 0 <= i < |cycles| && least == cycles[i].agreement)
  }

  /** The scan for the oldest record, which takes a zero time for "none yet". */
  ghost function Oldest(cycles: seq<Cycle>): int {
    if cycles == [] then 0
    else
      var before, last := Oldest(cycles[..|cycles| - 1]), cycles[|cycles| - 1].at;
      if before == 0 || last < before then last else before
  }

  ghost function Newest(cycles: seq<Cycle>): int {
    if cycles == [] then 0
    else
      var before, last := Newest(cycles[..|cycles| - 1]), cycles[|cycles| - 1].at;
      if before == 0 || last > before then last else before
  }

  ghost predicate Eligible(cycles: seq<Cycle>) { |cycles| > 1 && Newest(cycles) - Oldest(cycles) >= WEEK }

  datatype Metrics = Metrics(
    totalCycles: nat,
    inSyncCycles: nat,
    average: real,
    lowest: real,
    totalFalsePositives: nat,
    totalFalseNegatives: nat,
    consecutiveSync: nat,
    sevenDayPct: real,
    sevenDayEligible: bool)

  const NO_METRICS := Metrics(0, 0, 0.0, 0.0, 0, 0, 0, 0.0, false)

  ghost predicate IsMetrics(cycles: seq<Cycle>, now: int, m: Metrics) {
    if cycles == [] then m == NO_METRICS
    else
      && m.totalCycles == |cycles|
      && m.inSyncCycles == SumOf(InSyncCount, cycles)
      && m.average == Average(cycles)
      && IsLowest(cycles, m.lowest)
      && m.totalFalsePositives == SumOf(FalsePositiveCount, cycles)
      && m.totalFalseNegatives == SumOf(FalseNegativeCount, cycles)
      && IsLongestRun(cycles, m.consecutiveSync)
      && m.sevenDayPct == Average(Since(cycles, now - 604_800_000_000_000))
      && m.sevenDayEligible == Eligible(cycles)
  }

  /** One more record extends the trailing run or starts a new one. */
  lemma {:induction false} RunStep(s: seq<Cycle>, c: Cycle, trailing: nat, longest: nat)
    requires IsTrailingRun(s, trailing) && IsLongestRun(s, longest)
    ensures var t := if c.inSync then trailing + 1 else 0;
            IsTrailingRun(s + [c], t) && IsLongestRun(s + [c], if t > longest then t else longest)
  {
    var s' := s + [c];
    var t := if c.inSync then trailing + 1 else 0;
    assert IsTrailingRun(s', t);
    var from: nat, to: nat :| from <= to <= |s| && to - from == longest && SyncedBetween(s, from, to);
    assert SyncedBetween(s', from, to);
    assert SyncedBetween(s', |s'| - t, |s'|);
    forall i: nat, j: nat | i <= j <= |s'| && SyncedBetween(s', i, j)
      ensures j - i <= if t > longest then t else longest {
      if j <= |s| {
        assert forall k :: i <= k < j ==> s'[k] == s[k];
        assert SyncedBetween(s, i, j);
      } else {
        assert t < |s'| ==> !s'[|s'| - t - 1].inSync;
      }
    }
  }

  lemma {:induction false} LowestStep(s: seq<Cycle>, c: Cycle, least: real)
    requires IsLowest(s, least)
    ensures IsLowest(s + [c], if c.agreement < least then c.agreement else least)
  {
    var s' := s + [c];
    assert s'[|s|] == c;
    assert forall i :: 0 <= i < |s| ==> s'[i] == s[i];
  }

  method ScanSpan(cycles: seq<Cycle>) returns (oldest: int, newest: int)
    ensures oldest == Oldest(cycles) && newest == Newest(cycles)
  {
    oldest, newest := 0, 0;
    for i := 0 to |cycles|
      invariant oldest == Oldest(cycles[..i]) && newest == Newest(cycles[..i])
    {
      assert cycles[..i + 1][..i] == cycles[..i];
      var at := cycles[i].at;
      if oldest == 0 || at < oldest { oldest := at; }
      if newest == 0 || at > newest { newest := at; }
    }
    assert cycles[..|cycles|] == cycles;
  }

  /** The running sums of the loop over the records. */
  ghost predicate Sums(
    s: seq<Cycle>, cutoff: int, inSync: nat, fp: nat, fn: nat, sum: real, weekSum: real, weekCount: nat) {
    && inSync == SumOf(InSyncCount, s) && fp == SumOf(FalsePositiveCount, s) && fn == SumOf(FalseNegativeCount, s)
    && sum == TotalAgreement(s) && weekSum == TotalAgreement(Since(s, cutoff)) && weekCount == |Since(s, cutoff)|
  }

  lemma {:induction false} SumsStep(
    s: seq<Cycle>, c: Cycle, cutoff: int, inSync: nat, fp: nat, fn: nat, sum: real, weekSum: real, weekCount: nat)
    requires Sums(s, cutoff, inSync, fp, fn, sum, weekSum, weekCount)
    ensures Sums(s + [c], cutoff, if c.inSync then inSync + 1
            else inSync, fp + |c.falsePositives|, fn + |c.falseNegatives|,
                 sum + c.agreement, if c.at >= cutoff then weekSum + c.agreement else weekSum,
                 if c.at >= cutoff then weekCount + 1 else weekCount)
  {
    assert (s + [c])[..|s|] == s;
    var w := Since(s, cutoff);
    assert (w + [c])[..|w|] == w;
    assert w + [] == w;
  }

  ghost predicate Scanned(s: seq<Cycle>, lowest: real, currentRun: nat, maxRun: nat) {
    IsLowest(s, lowest) && IsTrailingRun(s, currentRun) && IsLongestRun(s, maxRun)
  }

  lemma {:induction false} NothingScanned()
    ensures Scanned([], 100.0, 0, 0)
  {
    assert SyncedBetween([], 0, 0);
  }

  lemma {:induction false} ScannedStep(s: seq<Cycle>, c: Cycle, lowest: real, currentRun: nat, maxRun: nat)
    requires Scanned(s, lowest, currentRun, maxRun)
    ensures var run := if c.inSync then currentRun + 1 else 0;
            Scanned(s + [c], if c.agreement < lowest then c.agreement else lowest, run, if run > maxRun then run
              else maxRun)
  {
    LowestStep(s, c, lowest);
    RunStep(s, c, currentRun, maxRun);
  }

  /** The variables of the loop over the records. */
  datatype Totals = Totals(
    inSync: nat, fp: nat, fn: nat, sum: real, weekSum: real, weekCount: nat, lowest: real, currentRun: nat, maxRun: nat)

  ghost function AddCycle(t: Totals, c: Cycle, cutoff: int): Totals {
    var run := if c.inSync then t.currentRun + 1 else 0;
    Totals(if c.inSync then t.inSync + 1 else t.inSync, t.fp + |c.falsePositives|, t.fn + |c.falseNegatives|,
           t.sum + c.agreement, if c.at >= cutoff then t.weekSum + c.agreement else t.weekSum,
           if c.at >= cutoff then t.weekCount + 1 else t.weekCount,
           if c.agreement < t.lowest then c.agreement else t.lowest, run, if run > t.maxRun then run else t.maxRun)
  }

  ghost function TotalsOf(cycles: seq<Cycle>, cutoff: int): Totals {
    if cycles == [] then Totals(0, 0, 0, 0.0, 0.0, 0, 100.0, 0, 0)
    else AddCycle(TotalsOf(cycles[..|cycles| - 1], cutoff), cycles[|cycles| - 1], cutoff)
  }

  lemma {:induction false} TotalsAreSums(cycles: seq<Cycle>, cutoff: int)
    ensures var t := TotalsOf(cycles, cutoff);
            Sums(cycles, cutoff, t.inSync, t.fp, t.fn, t.sum, t.weekSum, t.weekCount)
  {
    if cycles != [] {
      var front, c := cycles[..|cycles| - 1], cycles[|cycles| - 1];
      var t := TotalsOf(front, cutoff);
      TotalsAreSums(front, cutoff);
      SumsStep(front, c, cutoff, t.inSync, t.fp, t.fn, t.sum, t.weekSum, t.weekCount);
      assert cycles == front + [c];
    }
  }

  lemma {:induction false} TotalsAreScanned(cycles: seq<Cycle>, cutoff: int)
    ensures var t := TotalsOf(cycles, cutoff); Scanned(cycles, t.lowest, t.currentRun, t.maxRun)
  {
    if cycles == [] {
      NothingScanned();
    } else {
      var front, c := cycles[..|cycles| - 1], cycles[|cycles| - 1];
      var t := TotalsOf(front, cutoff);
      TotalsAreScanned(front, cutoff);
      ScannedStep(front, c, t.lowest, t.currentRun, t.maxRun);
      assert cycles == front + [c];
    }
  }

  /** The body of the loop. */
  method CountCycle(before: Totals, c: Cycle, cutoff: int) returns (t: Totals)
    ensures t == AddCycle(before, c, cutoff)
  {
    t := before;
    t := t.(sum := t.sum + c.agreement, fp := t.fp + |c.falsePositives|, fn := t.fn + |c.falseNegatives|);
    if c.agreement < t.lowest { t := t.(lowest := c.agreement); }
    if c.inSync {
      t := t.(inSync := t.inSync + 1, currentRun := t.currentRun + 1);
      if t.currentRun > t.maxRun { t := t.(maxRun := t.currentRun); }
    } else {
      t := t.(currentRun := 0);
    }
    if c.at >= cutoff { t := t.(weekSum := t.weekSum + c.agreement, weekCount := t.weekCount + 1); }
  }

  method ScanCycles(cycles: seq<Cycle>, cutoff: int) returns (t: Totals)
    ensures Sums(cycles, cutoff, t.inSync, t.fp, t.fn, t.sum, t.weekSum, t.weekCount)
    ensures IsLowest(cycles, t.lowest) && IsLongestRun(cycles, t.maxRun)
  {
    t := Totals(0, 0, 0, 0.0, 0.0, 0, 100.0, 0, 0);
    for i := 0 to |cycles|
      invariant t == TotalsOf(cycles[..i], cutoff)
    {
      assert cycles[..i + 1][..i] == cycles[..i];
      t := CountCycle(t, cycles[i], cutoff);
    }
    assert cycles[..|cycles|] == cycles;
    TotalsAreSums(cycles, cutoff);
    TotalsAreScanned(cycles, cutoff);
  }

  method ComputeMetrics(cycles: seq<Cycle>, now: int) returns (m: Metrics)
    ensures IsMetrics(cycles, now, m)
  {
    if |cycles| == 0 { return NO_METRICS; }
    var t := ScanCycles(cycles, now - WEEK);
    var weekPct := 0.0;
    if t.weekCount > 0 { weekPct := t.weekSum / t.weekCount as real; }
    var eligible := false;
    if |cycles| > 1 {
      var oldest, newest := ScanSpan(cycles);
      eligible := newest - oldest >= WEEK;
    }
    m := Metrics(|cycles|, t.inSync, t.sum / |cycles| as real, t.lowest, t.fp, t.fn, t.maxRun, weekPct, eligible);
  }

  lemma {:induction false} SumOfAppend(f: Cycle -> nat, a: seq<Cycle>, b: seq<Cycle>)
    ensures SumOf(f, a + b) == SumOf(f, a) + SumOf(f, b)
    decreases |b|
  {
    if b == [] {
      assert a + b == a;
    } else {
      assert (a + b)[..|a + b| - 1] == a + b[..|b| - 1];
      SumOfAppend(f, a, b[..|b| - 1]);
    }
  }

  lemma {:induction false} TotalAgreementAppend(a: seq<Cycle>, b: seq<Cycle>)
    ensures TotalAgreement(a + b) == TotalAgreement(a) + TotalAgreement(b)
    decreases |b|
  {
    if b == [] {
      assert a + b == a;
    } else {
      assert (a + b)[..|a + b| - 1] == a + b[..|b| - 1];
      TotalAgreementAppend(a, b[..|b| - 1]);
    }
  }

  /** The totals of one record. */
  lemma {:induction false} MetricsOfOne(c: Cycle, now: int, m: Metrics)
    requires IsMetrics([c], now, m)
    ensures m.totalCycles == 1 && m.inSyncCycles == (if c.inSync then 1 else 0) && m.average == c.agreement
    ensures m.totalFalsePositives == |c.falsePositives| && m.totalFalseNegatives == |c.falseNegatives|
    ensures m.sevenDayPct == if c.at >= now - 604_800_000_000_000 then c.agreement else 0.0
  {
    assert [c][..0] == [];
    assert SumOf(InSyncCount, []) == 0 && SumOf(FalsePositiveCount, []) == 0 && SumOf(FalseNegativeCount, []) == 0;
    assert TotalAgreement([]) == 0.0 && TotalAgreement([c]) == c.agreement;
    assert Since([], now - 604_800_000_000_000) == [];
  }

  /** The totals of a history are those of its parts together, so that `MetricsOfOne` and this decide them for every
      history: sums add, and averages are weighted by the number of records. */
  lemma {:induction false} MetricsAddUp(a: seq<Cycle>, b: seq<Cycle>, now: int, m: Metrics, ma: Metrics, mb: Metrics)
    requires a != [] && b != [] && IsMetrics(a + b, now, m) && IsMetrics(a, now, ma) && IsMetrics(b, now, mb)
    ensures m.totalCycles == ma.totalCycles + mb.totalCycles
    ensures m.inSyncCycles == ma.inSyncCycles + mb.inSyncCycles
    ensures m.totalFalsePositives == ma.totalFalsePositives + mb.totalFalsePositives
    ensures m.totalFalseNegatives == ma.totalFalseNegatives + mb.totalFalseNegatives
    ensures m.lowest == if ma.lowest < mb.lowest then ma.lowest else mb.lowest
    ensures WeightedBy(m.average, m.totalCycles, ma.average, ma.totalCycles, mb.average, mb.totalCycles)
  {
    SumOfAppend(InSyncCount, a, b);
    SumOfAppend(FalsePositiveCount, a, b);
    SumOfAppend(FalseNegativeCount, a, b);
    AverageOfBoth(a, b);
    LowestOfBoth(a, b, m.lowest, ma.lowest, mb.lowest);
  }

  /** An average of both parts, each counting as often as it has records. */
  ghost predicate WeightedBy(average: real, n: nat, a: real, na: nat, b: real, nb: nat) {
    average * n as real == a * na as real + b * nb as real
  }

  lemma {:induction false} AverageOfBoth(a: seq<Cycle>, b: seq<Cycle>)
    requires a != [] && b != []
    ensures WeightedBy(Average(a + b), |a + b|, Average(a), |a|, Average(b), |b|)
  {
    TotalAgreementAppend(a, b);
    AverageTimesCount(a);
    AverageTimesCount(b);
    AverageTimesCount(a + b);
  }

  lemma {:induction false} AverageTimesCount(cycles: seq<Cycle>)
    requires cycles != []
    ensures Average(cycles) * |cycles| as real == TotalAgreement(cycles)
  {
    var n := |cycles| as real;
    assert (TotalAgreement(cycles) / n) * n == TotalAgreement(cycles);
  }

  lemma {:induction false} LowestOfBoth(a: seq<Cycle>, b: seq<Cycle>, least: real, la: real, lb: real)
    requires IsLowest(a + b, least) && IsLowest(a, la) && IsLowest(b, lb)
    ensures least == if la < lb then la else lb
  {
    var all := a + b;
    assert forall i :: 0 <= i < |a| ==> all[i] == a[i];
    assert forall i :: 0 <= i < |b| ==> all[|a| + i] == b[i];
  }

  // ---------------------------------------------------------------- what the aggregates say together

  /** What `AgreementMeansInSync` gives for every record made from a plan of `buildSyncPlan`. */
  ghost predicate Honest(c: Cycle) { 0.0 <= c.agreement <= 100.0 && (c.agreement == 100.0 <==> c.inSync) }

  ghost predicate AllInSync(cycles: seq<Cycle>) { forall i :: 0 <= i < |cycles| ==> cycles[i].inSync }

  lemma {:induction false} TotalsOfHonest(cycles: seq<Cycle>)
    requires forall i :: 0 <= i < |cycles| ==> Honest(cycles[i])
    ensures 0.0 <= TotalAgreement(cycles) <= 100.0 * |cycles| as real
    ensures TotalAgreement(cycles) == 100.0 * |cycles| as real <==> AllInSync(cycles)
    ensures SumOf(InSyncCount, cycles) <= |cycles|
    ensures SumOf(InSyncCount, cycles) == |cycles| <==> AllInSync(cycles)
  {
    if cycles != [] {
      var n := |cycles| - 1;
      TotalsOfHonest(cycles[..n]);
      assert AllInSync(cycles) <==> AllInSync(cycles[..n]) && cycles[n].inSync;
    }
  }

  lemma {:induction false} LongestIsWhole(cycles: seq<Cycle>, n: nat)
    requires IsLongestRun(cycles, n)
    ensures n <= |cycles| && (n == |cycles| <==> AllInSync(cycles))
  {
    var i: nat, j: nat :| i <= j <= |cycles| && j - i == n && SyncedBetween(cycles, i, j);
    if AllInSync(cycles) { assert SyncedBetween(cycles, 0, |cycles|); }
  }

  lemma {:induction false} AverageIsFull(total: real, n: nat)
    requires n > 0
    ensures total / n as real == 100.0 <==> total == 100.0 * n as real
  {
    assert (total / n as real) * n as real == total;
  }

  /** Four ways to see a perfect history agree: the average, the minimum, the in-sync count and the longest run. */
  lemma {:induction false} PerfectHistory(cycles: seq<Cycle>, now: int, m: Metrics)
    requires cycles != [] && IsMetrics(cycles, now, m)
    requires forall i :: 0 <= i < |cycles| ==> Honest(cycles[i])
    ensures m.average == 100.0 <==> AllInSync(cycles)
    ensures m.lowest == 100.0 <==> AllInSync(cycles)
    ensures m.inSyncCycles == m.totalCycles <==> AllInSync(cycles)
    ensures m.consecutiveSync == m.totalCycles <==> AllInSync(cycles)
  {
    TotalsOfHonest(cycles);
    AverageIsFull(TotalAgreement(cycles), |cycles|);
    LongestIsWhole(cycles, m.consecutiveSync);
    if m.lowest == 100.0 {
      assert forall i :: 0 <= i < |cycles| ==> Honest(cycles[i]) && cycles[i].agreement == 100.0;
    }
  }

  ghost predicate SpansAWeek(cycles: seq<Cycle>) {
    exists i, j :: 0 <= i < |cycles| && 0 <= j < |cycles| && cycles[i].at - cycles[j].at >= 604_800_000_000_000
  }

  lemma {:induction false} ScanFindsExtremes(cycles: seq<Cycle>)
    requires cycles != [] && forall i :: 0 <= i < |cycles| ==> cycles[i].at > 0
    ensures forall i :: 0 <= i < |cycles| ==> Oldest(cycles) <= cycles[i].at <= Newest(cycles)
    ensures exists i :: 0 <= i < |cycles| && cycles[i].at == Oldest(cycles)
    ensures exists i :: 0 <= i < |cycles| && cycles[i].at == Newest(cycles)
  {
    var n := |cycles| - 1;
    assert cycles[n].at == cycles[n].at;
    if n > 0 {
      var front := cycles[..n];
      ScanFindsExtremes(front);
      var i :| 0 <= i < |front| && front[i].at == Oldest(front);
      var j :| 0 <= j < |front| && front[j].at == Newest(front);
      assert cycles[i].at == Oldest(front) && cycles[j].at == Newest(front);
    }
  }

  /** With no zero stamp the scan decides, in any order of the records, whether two of them are a week apart. */
  lemma {:induction false} EligibleIsSpan(cycles: seq<Cycle>)
    requires forall i :: 0 <= i < |cycles| ==> cycles[i].at > 0
    ensures Eligible(cycles) <==> SpansAWeek(cycles)
  {
    if cycles != [] {
      ScanFindsExtremes(cycles);
      var i :| 0 <= i < |cycles| && cycles[i].at == Oldest(cycles);
      var j :| 0 <= j < |cycles| && cycles[j].at == Newest(cycles);
      if Eligible(cycles) { assert cycles[j].at - cycles[i].at >= WEEK; }
    }
  }

  /** `k` is where the records after the last zero stamp begin. */
  ghost predicate AfterZeros(cycles: seq<Cycle>, k: nat) {
    && k <= |cycles| && (k > 0 ==> cycles[k - 1].at == 0)
    && (forall i :: 0 <= i < |cycles| ==> cycles[i].at >= 0)
    && (forall i :: k <= i < |cycles| ==> cycles[i].at > 0)
  }

  lemma {:induction false} NewestIsMaximum(cycles: seq<Cycle>)
    requires forall i :: 0 <= i < |cycles| ==> cycles[i].at >= 0
    ensures Newest(cycles) >= 0 && forall i :: 0 <= i < |cycles| ==> cycles[i].at <= Newest(cycles)
    ensures cycles != [] ==> exists i :: 0 <= i < |cycles| && cycles[i].at == Newest(cycles)
  {
    if cycles != [] {
      var n := |cycles| - 1;
      var front := cycles[..n];
      NewestIsMaximum(front);
      assert cycles[n].at == cycles[n].at;
      if front != [] {
        var i :| 0 <= i < |front| && front[i].at == Newest(front);
        assert cycles[i].at == Newest(front);
      }
    }
  }

  lemma {:induction false} OldestIsNotNegative(cycles: seq<Cycle>)
    requires forall i :: 0 <= i < |cycles| ==> cycles[i].at >= 0
    ensures Oldest(cycles) >= 0
  {
    if cycles != [] { OldestIsNotNegative(cycles[..|cycles| - 1]); }
  }

  /** A zero stamp makes the scan for the oldest record start over after it. */
  lemma {:induction false} OldestStartsOver(cycles: seq<Cycle>, k: nat)
    requires AfterZeros(cycles, k)
    ensures Oldest(cycles) == Oldest(cycles[k..])
  {
    if cycles != [] {
      var n := |cycles| - 1;
      if k == |cycles| {
        OldestIsNotNegative(cycles[..n]);
      } else {
        OldestStartsOver(cycles[..n], k);
        assert cycles[k..][..n - k] == cycles[..n][k..];
      }
    }
  }

  /** The exact value of the span test when zero stamps are among the records, as in a direct call on unfiltered ones:
      the newest of all against the oldest after the last zero stamp. */
  lemma {:induction false} EligibleWithZeros(cycles: seq<Cycle>, k: nat)
    requires AfterZeros(cycles, k)
    ensures Eligible(cycles) <==>
            |cycles| > 1 && exists i :: 0 <= i < |cycles| && cycles[i].at - Oldest(cycles[k..]) >= 604_800_000_000_000
  {
    NewestIsMaximum(cycles);
    OldestStartsOver(cycles, k);
  }

  /** So the scan, documented as order-independent, is that only without zero stamps; the readers of the store pass
      none. */
  lemma {:induction false} ZeroStampDependsOnOrder(c: Cycle)
    ensures var zero, late := c.(at := 0), c.(at := 604_800_000_000_000);
            Eligible([late, zero]) && !Eligible([zero, late])
  {
    var zero, late := c.(at := 0), c.(at := WEEK);
    assert [late, zero][..1] == [late] && [late][..0] == [];
    assert [zero, late][..1] == [zero] && [zero][..0] == [];
    assert Oldest([late]) == WEEK && Newest([late]) == WEEK;
    assert Oldest([zero]) == 0 && Newest([zero]) == 0;
    assert Oldest([late, zero]) == 0 && Newest([late, zero]) == WEEK;
    assert Oldest([zero, late]) == WEEK && Newest([zero, late]) == WEEK;
  }

  // ---------------------------------------------------------------- the store

  lemma {:induction false} SinceAppend(a: seq<Cycle>, b: seq<Cycle>, t: int)
    ensures Since(a + b, t) == Since(a, t) + Since(b, t)
    decreases |b|
  {
    if b == [] {
      assert a + b == a;
    } else {
      var n := |b| - 1;
      SinceAppend(a, b[..n], t);
      assert (a + b)[..|a + b| - 1] == a + b[..n];
    }
  }

  lemma {:induction false} SinceOfSince(cycles: seq<Cycle>, early: int, late: int)
    requires early <= late
    ensures Since(Since(cycles, early), late) == Since(cycles, late)
  {
    if cycles != [] {
      var n := |cycles| - 1;
      var last := cycles[n];
      SinceOfSince(cycles[..n], early, late);
      var front := Since(cycles[..n], early);
      assert front + [] == front;
      if last.at >= early {
        SinceAppend(front, [last], late);
      }
    }
  }

  lemma {:induction false} SinceMembers(cycles: seq<Cycle>, t: int, c: Cycle)
    ensures c in Since(cycles, t) <==> c in cycles && c.at >= t
  {
    if cycles != [] {
      var n := |cycles| - 1;
      SinceMembers(cycles[..n], t, c);
      assert cycles == cycles[..n] + [cycles[n]];
    }
  }

  /** The one filtering loop of `ReadSince` and `Prune`. */
  method Filter(cycles: seq<Cycle>, since: int) returns (kept: seq<Cycle>)
    ensures kept == Since(cycles, since)
  {
    kept := [];
    for i := 0 to |cycles|
      invariant kept == Since(cycles[..i], since)
    {
      assert cycles[..i + 1][..i] == cycles[..i];
      if cycles[i].at >= since { kept := kept + [cycles[i]]; }
    }
    assert cycles[..|cycles|] == cycles;
  }

  lemma {:induction false} SinceShrinks(cycles: seq<Cycle>, t: int)
    ensures |Since(cycles, t)| <= |cycles|
    ensures |Since(cycles, t)| == |cycles| ==> Since(cycles, t) == cycles
  {
    if cycles != [] {
      var n := |cycles| - 1;
      SinceShrinks(cycles[..n], t);
      assert cycles == cycles[..n] + [cycles[n]];
    }
  }

  class Store {
    var cycles: seq<Cycle>

    constructor ()
      ensures cycles == []
    {
      cycles := [];
    }

    method Append(c: Cycle, ok: bool)
      modifies this
      ensures cycles == if ok then old(cycles) + [c] else old(cycles)
    {
      if ok { cycles := cycles + [c]; }
    }

    method ReadSince(since: int, ok: bool) returns (r: Option<seq<Cycle>>)
      ensures r == if ok then Some(Since(cycles, since)) else None
    {
      if !ok { return None; }
      var kept := Filter(cycles, since);
      r := Some(kept);
    }

    /** An untouched file when nothing is old enough, or when reading or rewriting fails. */
    method Prune(retainSince: int, ok: bool)
      modifies this
      ensures cycles == if ok then Since(old(cycles), retainSince) else old(cycles)
    {
      if !ok || |cycles| == 0 { return; }
      var keep := Filter(cycles, retainSince);
      SinceShrinks(cycles, retainSince);
      if |keep| == |cycles| { return; }
      cycles := keep;
    }

    /** `recordShadowCycle`: compare, append, prune, then report on the last seven days. */
    method RecordShadowCycle(turn: Turn) returns (report: Option<Metrics>)
      modifies this
      ensures cycles == Recorded(old(cycles), turn)
      ensures var seen := Since(cycles, turn.readAt - 604_800_000_000_000);
              && (report.Some? <==> turn.readOk && seen != [])
              && (report.Some? ==> IsMetrics(seen, turn.reportedAt, report.value))
    {
      var c := Compare(turn.plan, turn.comparedAt);
      Append(c, turn.appendOk);
      Prune(turn.prunedAt - RETENTION, turn.pruneOk);
      var seen := ReadSince(turn.readAt - WEEK, turn.readOk);
      if seen.None? || |seen.value| == 0 { return None; }
      var m := ComputeMetrics(seen.value, turn.reportedAt);
      report := Some(m);
    }
  }

  // ---------------------------------------------------------------- runs

  /** One shadow cycle: its plan, the clock at each step and which file operations succeed. */
  datatype Turn = Turn(
    plan: BanSync.SyncPlan,
    comparedAt: int,
    prunedAt: int,
    readAt: int,
    reportedAt: int,
    appendOk: bool,
    pruneOk: bool,
    readOk: bool)

  ghost function Appended(cycles: seq<Cycle>, t: Turn): seq<Cycle> {
    if t.appendOk then cycles + [CycleOf(t.plan, t.comparedAt)] else cycles
  }

  ghost function Recorded(cycles: seq<Cycle>, t: Turn): seq<Cycle> {
    var all := Appended(cycles, t);
    if t.pruneOk then Since(all, t.prunedAt - RETENTION) else all
  }

  /** The file after a run that started without one. */
  ghost function Stored(turns: seq<Turn>): seq<Cycle> {
    if turns == [] then [] else Recorded(Stored(turns[..|turns| - 1]), turns[|turns| - 1])
  }

  /** Everything ever appended. */
  ghost function Log(turns: seq<Turn>): seq<Cycle> {
    if turns == [] then [] else Appended(Log(turns[..|turns| - 1]), turns[|turns| - 1])
  }

  /** The clock does not go back, within a cycle or between cycles. */
  ghost predicate Ticking(turns: seq<Turn>) {
    && (forall i :: 0 <= i < |turns| ==> turns[i].comparedAt <= turns[i].prunedAt <= turns[i].readAt)
    && (forall i, j :: 0 <= i < j < |turns| ==> turns[i].readAt <= turns[j].comparedAt)
  }

  lemma {:induction false} RecordedReads(stored: seq<Cycle>, log: seq<Cycle>, t: Turn, since: int)
    requires Since(stored, since) == Since(log, since) && t.prunedAt - RETENTION <= since
    ensures Since(Recorded(stored, t), since) == Since(Appended(log, t), since)
  {
    var one := [CycleOf(t.plan, t.comparedAt)];
    SinceAppend(stored, one, since);
    SinceAppend(log, one, since);
    SinceOfSince(Appended(stored, t), t.prunedAt - RETENTION, since);
  }

  lemma {:induction false} PrunedReadsTheLog(turns: seq<Turn>, since: int)
    requires forall i :: 0 <= i < |turns| ==> turns[i].prunedAt - RETENTION <= since
    ensures Since(Stored(turns), since) == Since(Log(turns), since)
  {
    if turns != [] {
      var n := |turns| - 1;
      PrunedReadsTheLog(turns[..n], since);
      RecordedReads(Stored(turns[..n]), Log(turns[..n]), turns[n], since);
    }
  }

  /** What the file holds after a cycle: the records from before and the new one, if it was appended, without those over
      thirty days old, if they were pruned. */
  lemma {:induction false} RecordedExactly(cycles: seq<Cycle>, t: Turn, c: Cycle)
    ensures c in Recorded(cycles, t) <==>
            && (c in cycles || (t.appendOk && c == CycleOf(t.plan, t.comparedAt)))
            && (t.pruneOk ==> c.at >= t.prunedAt - 2_592_000_000_000_000)
  {
    SinceMembers(Appended(cycles, t), t.prunedAt - RETENTION, c);
  }

  /** Pruning at thirty days never shows: in every run each report reads what an unpruned log would give. */
  lemma {:induction false} PruningIsInvisible(turns: seq<Turn>)
    requires turns != [] && Ticking(turns)
    ensures var since := turns[|turns| - 1].readAt - 604_800_000_000_000;
            Since(Stored(turns), since) == Since(Log(turns), since)
  {
    PrunedReadsTheLog(turns, turns[|turns| - 1].readAt - WEEK);
  }

  lemma {:induction false} LogStamps(turns: seq<Turn>, c: Cycle)
    requires Ticking(turns) && c in Log(turns)
    ensures c.at <= turns[|turns| - 1].comparedAt
  {
    var n := |turns| - 1;
    if c in Log(turns[..n]) {
      LogStamps(turns[..n], c);
      assert turns[n - 1].comparedAt <= turns[n - 1].readAt <= turns[n].comparedAt;
    }
  }

  ghost predicate StampedAt(log: seq<Cycle>, at: int) { exists i :: 0 <= i < |log| && log[i].at == at }

  lemma {:induction false} StampedSince(log: seq<Cycle>, since: int, at: int)
    requires at >= since
    ensures StampedAt(Since(log, since), at) <==> StampedAt(log, at)
  {
    var seen := Since(log, since);
    if StampedAt(seen, at) {
      var i :| 0 <= i < |seen| && seen[i].at == at;
      SinceMembers(log, since, seen[i]);
    }
    if StampedAt(log, at) {
      var i :| 0 <= i < |log| && log[i].at == at;
      SinceMembers(log, since, log[i]);
    }
  }

  lemma {:induction false} EligibleReads(log: seq<Cycle>, comparedAt: int, readAt: int)
    requires comparedAt <= readAt && readAt > 604_800_000_000_000 && forall c :: c in log ==> c.at <= comparedAt
    ensures Eligible(Since(log, readAt - 604_800_000_000_000)) <==>
            readAt == comparedAt && StampedAt(log, comparedAt) && StampedAt(log, comparedAt - 604_800_000_000_000)
  {
    var seen := Since(log, readAt - WEEK);
    forall i | 0 <= i < |seen| ensures readAt - WEEK <= seen[i].at <= comparedAt {
      SinceMembers(log, readAt - WEEK, seen[i]);
    }
    EligibleIsSpan(seen);
    if readAt == comparedAt {
      StampedSince(log, readAt - WEEK, comparedAt);
      StampedSince(log, readAt - WEEK, comparedAt - WEEK);
    }
  }

  /** Eligibility is meant to hold once a week of data exists.  On the report path it holds exactly when the read sees
      the very instant of the current record and a record exactly one week older is in the log. */
  lemma {:induction false} EligibleOnlyOnTheDot(turns: seq<Turn>)
    requires turns != [] && Ticking(turns)
    requires turns[|turns| - 1].readAt > 604_800_000_000_000
    ensures var t := turns[|turns| - 1];
            Eligible(Since(Stored(turns), t.readAt - 604_800_000_000_000)) <==>
            t.readAt == t.comparedAt && StampedAt(Log(turns), t.comparedAt)
              && StampedAt(Log(turns), t.comparedAt - 604_800_000_000_000)
  {
    var t := turns[|turns| - 1];
    PruningIsInvisible(turns);
    forall c | c in Log(turns) ensures c.at <= t.comparedAt { LogStamps(turns, c); }
    EligibleReads(Log(turns), t.comparedAt, t.readAt);
  }

  /** With a clock that moves between comparing and reading, no report of any run is ever eligible. */
  lemma {:induction false} NeverEligible(turns: seq<Turn>, m: Metrics)
    requires turns != [] && Ticking(turns)
    requires var t := turns[|turns| - 1]; 604_800_000_000_000 < t.readAt && t.comparedAt < t.readAt
    requires var t := turns[|turns| - 1];
             IsMetrics(Since(Stored(turns), t.readAt - 604_800_000_000_000), t.reportedAt, m)
    ensures !m.sevenDayEligible
  {
    EligibleOnlyOnTheDot(turns);
  }

  /** Eight days of data, and still not eligible. */
  lemma {:induction false} EightDaysAreNotEnough(plan: BanSync.SyncPlan) returns (turns: seq<Turn>)
    ensures Ticking(turns) && |turns| == 2 && SpansAWeek(Log(turns))
    ensures !Eligible(Since(Stored(turns), turns[1].readAt - 604_800_000_000_000))
  {
    var early := Turn(plan, 100 * DAY, 100 * DAY, 100 * DAY + 1, 100 * DAY + 1, true, true, true);
    var late := Turn(plan, 108 * DAY, 108 * DAY, 108 * DAY + 1, 108 * DAY + 1, true, true, true);
    turns := [early, late];
    assert turns[..1] == [early] && [early][..0] == [];
    assert Log([early]) == [CycleOf(plan, 100 * DAY)];
    assert Log(turns) == [CycleOf(plan, 100 * DAY), CycleOf(plan, 108 * DAY)];
    assert Log(turns)[1].at - Log(turns)[0].at >= WEEK;
    EligibleOnlyOnTheDot(turns);
  }
}
