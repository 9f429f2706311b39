/** `shadow.Classify`: divergent addresses tallied, classified, counted and sorted. */
module DriftClassifier {
  import opened Orders
  import Shadow
  import BanSync

  // What the report says must add up with what `ComputeMetrics` says.

  const FALSE_POSITIVE := "false_positive"
  const FALSE_NEGATIVE := "false_negative"

  datatype Key = Key(ip: string, direction: string)

  /** How often and when a key was seen. */
  datatype Seen = Seen(count: nat, first: int, last: int)

  datatype Class = ProtectedIP | Allowlist | ConfidenceGate | ModSecRule | CidrRule | Timing | RuleCollapsing | Unknown

  datatype Risk = High | Medium | Low | Info

  datatype IPDrift = IPDrift(key: Key, seen: Seen, class_: Class, risk: Risk)

  /** What the classifier may ask: the shield and the allowlist, either possibly absent, and the /24 heuristic. */
  datatype Env = Env(isProtected: Option<string -> bool>, allowlist: Option<set<string>>, insideCidr: string -> bool)

  // ---------------------------------------------------------------- the history as events

  datatype Event = Event(key: Key, at: int)

  function EventsOf(ips: seq<string>, direction: string, at: int): seq<Event> {
    MapSeq((ip: string) => Event(Key(ip, direction), at), ips)
  }

  ghost function CycleEvents(c: Shadow.Cycle): seq<Event> {
    EventsOf(c.falsePositives, FALSE_POSITIVE, c.at) + EventsOf(c.falseNegatives, FALSE_NEGATIVE, c.at)
  }

  ghost function Events(cycles: seq<Shadow.Cycle>): seq<Event> {
    if cycles == [] then [] else Events(cycles[..|cycles| - 1]) + CycleEvents(cycles[|cycles| - 1])
  }

  function EventKey(e: Event): Key { e.key }
  ghost function KeysOf(events: seq<Event>): seq<Key> { MapSeq(EventKey, events) }

  lemma {:induction false} EventDirections(cycles: seq<Shadow.Cycle>, i: nat)
    requires i < |Events(cycles)|
    ensures Events(cycles)[i].key.direction in {FALSE_POSITIVE, FALSE_NEGATIVE}
  {
    var n := |cycles| - 1;
    if i < |Events(cycles[..n])| { EventDirections(cycles[..n], i); }
  }

  /** The events are as many as the false positives and negatives that `ComputeMetrics` totals. */
  lemma {:induction false} EventsAreTotals(cycles: seq<Shadow.Cycle>)
    ensures |Events(cycles)| == Shadow.SumOf(Shadow.FalsePositiveCount,
            cycles) + Shadow.SumOf(Shadow.FalseNegativeCount, cycles)
  {
    if cycles != [] { EventsAreTotals(cycles[..|cycles| - 1]); }
  }

  // ---------------------------------------------------------------- the tracker

  function Track(tracker: map<Key, Seen>, e: Event): map<Key, Seen> {
    if e.key in tracker then tracker[e.key := Seen(tracker[e.key].count + 1, tracker[e.key].first, e.at)]
    else tracker[e.key := Seen(1, e.at, e.at)]
  }

  ghost function TrackAll(events: seq<Event>): map<Key, Seen> {
    if events == [] then map[] else Track(TrackAll(events[..|events| - 1]), events[|events| - 1])
  }

  ghost predicate FirstAt(events: seq<Event>, k: Key, at: int) {
    exists i :: 0 <= i < |events| && events[i] == Event(k, at) && forall j :: 0 <= j < i ==> events[j].key != k
  }

  ghost predicate LastAt(events: seq<Event>, k: Key, at: int) {
    exists i :: 0 <= i < |events| && events[i] == Event(k, at) && forall j :: i < j < |events| ==> events[j].key != k
  }

  lemma {:induction false} FirstStep(events: seq<Event>, e: Event, k: Key, at: int)
    requires if e.key == k && k !in KeysOf(events) then at == e.at else FirstAt(events, k, at)
    ensures FirstAt(events + [e], k, at)
  {
    var all := events + [e];
    if e.key == k && k !in KeysOf(events) {
      forall j | 0 <= j < |events| ensures all[j].key != k { assert KeysOf(events)[j] == events[j].key; }
      assert all[|events|] == Event(k, at);
    } else {
      var i :| 0 <= i < |events| && events[i] == Event(k, at) && forall j :: 0 <= j < i ==> events[j].key != k;
      assert all[i] == Event(k, at);
    }
  }

  lemma {:induction false} LastStep(events: seq<Event>, e: Event, k: Key, at: int)
    requires if e.key == k then at == e.at else LastAt(events, k, at)
    ensures LastAt(events + [e], k, at)
  {
    var all := events + [e];
    if e.key == k {
      assert all[|events|] == Event(k, at);
    } else {
      var i :| 0 <= i < |events| && events[i] == Event(k, at) && forall j :: i < j < |events| ==> events[j].key != k;
      assert all[i] == Event(k, at);
    }
  }

  lemma {:induction false} KeysStep(events: seq<Event>, e: Event)
    ensures KeysOf(events + [e]) == KeysOf(events) + [e.key]
  {
  }

  /** The tracker holds exactly the keys that occur, each with its number of occurrences, its first and its last time.
      */
  lemma {:induction false} TrackerIsExact(events: seq<Event>, k: Key)
    ensures k in TrackAll(events) <==> k in KeysOf(events)
    ensures k in TrackAll(events) ==>
              var seen := TrackAll(events)[k];
              seen.count == multiset(KeysOf(events))[k] && FirstAt(events, k, seen.first)
                && LastAt(events, k, seen.last)
  {
    if events != [] {
      var n := |events| - 1;
      var front, e := events[..n], events[n];
      TrackerIsExact(front, k);
      assert events == front + [e];
      KeysStep(front, e);
      if k in TrackAll(events) {
        FirstStep(front, e, k, TrackAll(events)[k].first);
        LastStep(front, e, k, TrackAll(events)[k].last);
      }
    }
  }

  lemma {:induction false} TrackStep(events: seq<Event>, e: Event)
    ensures TrackAll(events + [e]) == Track(TrackAll(events), e)
  {
    assert (events + [e])[..|events|] == events;
  }

  /** One inner loop of `Classify`. */
  method TrackList(start: map<Key, Seen>, ips: seq<string>, direction: string, at: int, ghost before: seq<Event>)
    returns (tracker: map<Key, Seen>)
    requires start == TrackAll(before)
    ensures tracker == TrackAll(before + EventsOf(ips, direction, at))
  {
    tracker := start;
    assert before + EventsOf(ips[..0], direction, at) == before;
    for j := 0 to |ips|
      invariant tracker == TrackAll(before + EventsOf(ips[..j], direction, at))
    {
      var e := Event(Key(ips[j], direction), at);
      TrackStep(before + EventsOf(ips[..j], direction, at), e);
      assert before + EventsOf(ips[..j + 1], direction, at) == before + EventsOf(ips[..j], direction, at) + [e];
      if e.key !in tracker { tracker := tracker[e.key := Seen(0, at, at)]; }
      tracker := tracker[e.key := Seen(tracker[e.key].count + 1, tracker[e.key].first, at)];
    }
    assert ips[..|ips|] == ips;
  }

  lemma {:induction false} EventsStep(cycles: seq<Shadow.Cycle>, i: nat)
    requires i < |cycles|
    ensures Events(cycles[..i + 1]) == Events(cycles[..i]) + CycleEvents(cycles[i])
  {
    assert cycles[..i + 1][..i] == cycles[..i];
  }

  method TrackCycle(start: map<Key, Seen>, c: Shadow.Cycle, ghost before: seq<Event>) returns (tracker: map<Key, Seen>)
    requires start == TrackAll(before)
    ensures tracker == TrackAll(before + CycleEvents(c))
  {
    ghost var half := EventsOf(c.falsePositives, FALSE_POSITIVE, c.at);
    ghost var rest := EventsOf(c.falseNegatives, FALSE_NEGATIVE, c.at);
    tracker := TrackList(start, c.falsePositives, FALSE_POSITIVE, c.at, before);
    tracker := TrackList(tracker, c.falseNegatives, FALSE_NEGATIVE, c.at, before + half);
    assert before + half + rest == before + (half + rest);
  }

  method BuildTracker(cycles: seq<Shadow.Cycle>) returns (tracker: map<Key, Seen>)
    ensures tracker == TrackAll(Events(cycles))
  {
    tracker := map[];
    assert Events(cycles[..0]) == [];
    for i := 0 to |cycles|
      invariant tracker == TrackAll(Events(cycles[..i]))
    {
      EventsStep(cycles, i);
      tracker := TrackCycle(tracker, cycles[i], Events(cycles[..i]));
    }
    assert cycles[..|cycles|] == cycles;
  }

  // ---------------------------------------------------------------- one drift

  function RiskOf(c: Class): Risk {
    match c
    case ProtectedIP => High
    case Allowlist | ConfidenceGate | Unknown => Medium
    case CidrRule | Timing | ModSecRule | RuleCollapsing => Low
  }

  function Classified(env: Env, key: Key, seen: Seen): IPDrift {
    var ip := key.ip;
    if env.isProtected.Some? && env.isProtected.value(ip) then IPDrift(key, seen, ProtectedIP, High)
    else if key.direction == FALSE_POSITIVE && env.allowlist.Some? && ip in env.allowlist.value
    then IPDrift(key, seen, Allowlist, Medium)
    else if key.direction == FALSE_NEGATIVE && env.insideCidr(ip) then IPDrift(key, seen, CidrRule, Low)
    else if seen.count <= 2 then IPDrift(key, seen, Timing, Low)
    else if key.direction == FALSE_POSITIVE then IPDrift(key, seen, ConfidenceGate, Medium)
    else if key.direction == FALSE_NEGATIVE then IPDrift(key, seen, ModSecRule, Low)
    else IPDrift(key, seen, Unknown, Medium)
  }

  function RiskOrder(r: Risk): nat {
    match r
    case High => 0
    case Medium => 1
    case Low => 2
    case Info => 3
  }

  predicate DriftLess(a: IPDrift, b: IPDrift) {
    if RiskOrder(a.risk) != RiskOrder(b.risk) then RiskOrder(a.risk) < RiskOrder(b.risk)
      else a.seen.count > b.seen.count
  }

  function DriftKey(d: IPDrift): Key { d.key }
  function DriftClass(d: IPDrift): Class { d.class_ }

  // ---------------------------------------------------------------- the report

  function Count(counts: map<Class, nat>, c: Class): nat { if c in counts then counts[c] else 0 }

  /** `ClassCounts` holds a positive count for exactly the classes that occur. */
  ghost predicate Counts(counts: map<Class, nat>, classes: seq<Class>) {
    forall c :: (c in counts <==> c in classes) && Count(counts, c) == multiset(classes)[c]
  }

  datatype Gap = Gap(class_: Class, count: nat)

  /** The classes a gap can explain, in the order they are listed. */
  const GAP_ORDER := [ProtectedIP, Allowlist, ConfidenceGate, CidrRule, RuleCollapsing, ModSecRule]

  function GapOf(counts: map<Class, nat>, c: Class): Option<Gap> {
    if Count(counts, c) > 0 then Some(Gap(c, Count(counts, c))) else None
  }

  ghost function Gaps(counts: map<Class, nat>, order: seq<Class>): seq<Gap> {
    Collect((c: Class) => GapOf(counts, c), order)
  }

  datatype Report = Report(
    cyclesAnalyzed: nat,
    totalDriftEvents: nat,
    classCounts: map<Class, nat>,
    drifts: seq<IPDrift>,
    gaps: seq<Gap>,
    timingCount: nat,
    unexplainedCount: nat)

  /** The drifts are the tracked keys, each once, each classified. */
  ghost predicate Lists(env: Env, tracker: map<Key, Seen>, keys: set<Key>, drifts: seq<IPDrift>) {
    && Distinct(MapSeq(DriftKey, drifts))
    && Elements(MapSeq(DriftKey, drifts)) == keys
    && forall d :: d in drifts ==> d.key in tracker && d == Classified(env, d.key, tracker[d.key])
  }

  ghost predicate IsReport(cycles: seq<Shadow.Cycle>, env: Env, r: Report) {
    var tracker := TrackAll(Events(cycles));
    && r.cyclesAnalyzed == |cycles|
    && r.totalDriftEvents == |tracker|
    && Lists(env, tracker, tracker.Keys, r.drifts)
    && Counts(r.classCounts, MapSeq(DriftClass, r.drifts))
    && SortedBy(DriftLess, r.drifts)
    && r.gaps == Gaps(r.classCounts, GAP_ORDER)
    && r.timingCount == Count(r.classCounts, Timing)
    && r.unexplainedCount == Count(r.classCounts, Unknown)
  }

  lemma {:induction false} MapSeqAppend<T, U>(f: T -> U, s: seq<T>, x: T)
    ensures MapSeq(f, s + [x]) == MapSeq(f, s) + [f(x)]
  {
  }

  lemma {:induction false} ListsStep(env: Env, tracker: map<Key, Seen>, keys: set<Key>, drifts: seq<IPDrift>, k: Key)
    requires Lists(env, tracker, keys, drifts) && k in tracker && k !in keys
    ensures Lists(env, tracker, keys + {k}, drifts + [Classified(env, k, tracker[k])])
  {
    var d := Classified(env, k, tracker[k]);
    var ks := MapSeq(DriftKey, drifts);
    MapSeqAppend(DriftKey, drifts, d);
    AppendElement(ks, k);
    forall i, j | 0 <= i < j < |ks + [k]| ensures (ks + [k])[i] != (ks + [k])[j] {
      if j == |ks| { assert ks[i] in Elements(ks); }
    }
  }

  lemma {:induction false} ListsMore(env: Env, tracker: map<Key, Seen>, todo: set<Key>, drifts: seq<IPDrift>, k: Key)
    requires k in todo && todo <= tracker.Keys && Lists(env, tracker, tracker.Keys - todo, drifts)
    ensures Lists(env, tracker, tracker.Keys - (todo - {k}), drifts + [Classified(env, k, tracker[k])])
  {
    ListsStep(env, tracker, tracker.Keys - todo, drifts, k);
    assert tracker.Keys - (todo - {k}) == tracker.Keys - todo + {k};
  }

  lemma {:induction false} CountsMore(counts: map<Class, nat>, drifts: seq<IPDrift>, d: IPDrift)
    requires Counts(counts, MapSeq(DriftClass, drifts))
    ensures Counts(counts[d.class_ := Count(counts, d.class_) + 1], MapSeq(DriftClass, drifts + [d]))
  {
    MapSeqAppend(DriftClass, drifts, d);
  }

  /** The loop over the tracker, in whatever order the map is visited. */
  method ClassifyAll(env: Env, tracker: map<Key, Seen>) returns (drifts: seq<IPDrift>, counts: map<Class, nat>)
    ensures Lists(env, tracker, tracker.Keys, drifts) && |drifts| == |tracker|
    ensures Counts(counts, MapSeq(DriftClass, drifts))
  {
    drifts, counts := [], map[];
    var todo := tracker.Keys;
    while todo != {}
      invariant todo <= tracker.Keys && |drifts| + |todo| == |tracker.Keys|
      invariant Lists(env, tracker, tracker.Keys - todo, drifts)
      invariant Counts(counts, MapSeq(DriftClass, drifts))
      decreases |todo|
    {
      var k :| k in todo;
      var d := Classified(env, k, tracker[k]);
      ListsMore(env, tracker, todo, drifts, k);
      CountsMore(counts, drifts, d);
      counts := counts[d.class_ := Count(counts, d.class_) + 1];
      drifts := drifts + [d];
      todo := todo - {k};
    }
    assert tracker.Keys - todo == tracker.Keys;
    assert |tracker.Keys| == |tracker|;
  }

  lemma {:induction false} ListsSorted(
    env: Env, tracker: map<Key, Seen>, keys: set<Key>, drifts: seq<IPDrift>, sorted: seq<IPDrift>)
    requires Lists(env, tracker, keys, drifts) && multiset(sorted) == multiset(drifts)
    ensures Lists(env, tracker, keys, sorted)
  {
    MapPermutation(DriftKey, drifts, sorted);
    var ks, ks' := MapSeq(DriftKey, drifts), MapSeq(DriftKey, sorted);
    DistinctPermutation(ks, ks');
    assert Elements(ks) == Elements(ks') by {
      assert forall k :: k in ks <==> k in multiset(ks);
      assert forall k :: k in ks' <==> k in multiset(ks');
    }
    assert forall d :: d in sorted ==> d in multiset(sorted);
  }

  lemma {:induction false} CountsSorted(counts: map<Class, nat>, drifts: seq<IPDrift>, sorted: seq<IPDrift>)
    requires Counts(counts, MapSeq(DriftClass, drifts)) && multiset(sorted) == multiset(drifts)
    ensures Counts(counts, MapSeq(DriftClass, sorted))
  {
    MapPermutation(DriftClass, drifts, sorted);
    var cs, cs' := MapSeq(DriftClass, drifts), MapSeq(DriftClass, sorted);
    assert forall c :: c in cs <==> c in multiset(cs);
    assert forall c :: c in cs' <==> c in multiset(cs');
  }

  method ExplainedByGoGaps(counts: map<Class, nat>) returns (gaps: seq<Gap>)
    ensures gaps == Gaps(counts, GAP_ORDER)
  {
    gaps := [];
    for i := 0 to |GAP_ORDER|
      invariant gaps == Gaps(counts, GAP_ORDER[..i])
    {
      CollectStep((c: Class) => GapOf(counts, c), GAP_ORDER, i);
      var c := GAP_ORDER[i];
      if Count(counts, c) > 0 { gaps := gaps + [Gap(c, Count(counts, c))]; }
    }
    assert GAP_ORDER[..|GAP_ORDER|] == GAP_ORDER;
  }

  method Classify(cycles: seq<Shadow.Cycle>, env: Env) returns (r: Report)
    ensures IsReport(cycles, env, r)
  {
    var tracker := BuildTracker(cycles);
    var unsorted, counts := ClassifyAll(env, tracker);
    var drifts := SortSlice(DriftLess, unsorted);
    ListsSorted(env, tracker, tracker.Keys, unsorted, drifts);
    CountsSorted(counts, unsorted, drifts);
    var gaps := ExplainedByGoGaps(counts);
    r := Report(|cycles|, |tracker|, counts, drifts, gaps, Count(counts, Timing), Count(counts, Unknown));
  }

  // ---------------------------------------------------------------- counts add up

  ghost function SumOver<K>(ks: seq<K>, m: multiset<K>): nat {
    if ks == [] then 0 else SumOver(ks[..|ks| - 1], m) + m[ks[|ks| - 1]]
  }

  lemma {:induction false} SumAdd<K>(ks: seq<K>, xs: seq<K>, x: K)
    requires Distinct(ks)
    ensures SumOver(ks, multiset(xs + [x])) == SumOver(ks, multiset(xs)) + if x in ks then 1 else 0
  {
    if ks != [] {
      var n := |ks| - 1;
      SumAdd(ks[..n], xs, x);
      assert ks == ks[..n] + [ks[n]];
    }
  }

  lemma {:induction false} SumNone<K>(ks: seq<K>)
    ensures SumOver(ks, multiset{}) == 0
  {
    if ks != [] { SumNone(ks[..|ks| - 1]); }
  }

  /** Summing the multiplicities over a list of all the values gives the number of elements. */
  lemma {:induction false} SumCovers<K>(ks: seq<K>, xs: seq<K>)
    requires Distinct(ks) && forall x :: x in xs ==> x in ks
    ensures SumOver(ks, multiset(xs)) == |xs|
  {
    if xs == [] {
      SumNone(ks);
    } else {
      var n := |xs| - 1;
      assert xs == xs[..n] + [xs[n]];
      SumCovers(ks, xs[..n]);
      SumAdd(ks, xs[..n], xs[n]);
    }
  }

  ghost function TotalOccurrences(drifts: seq<IPDrift>): nat {
    if drifts == [] then 0 else TotalOccurrences(drifts[..|drifts| - 1]) + drifts[|drifts| - 1].seen.count
  }

  lemma {:induction false} OccurrencesAreMultiplicities(drifts: seq<IPDrift>, m: multiset<Key>)
    requires forall d :: d in drifts ==> d.seen.count == m[d.key]
    ensures TotalOccurrences(drifts) == SumOver(MapSeq(DriftKey, drifts), m)
  {
    if drifts != [] {
      var n := |drifts| - 1;
      OccurrencesAreMultiplicities(drifts[..n], m);
      assert MapSeq(DriftKey, drifts)[..n] == MapSeq(DriftKey, drifts[..n]);
      assert drifts[n] in drifts;
    }
  }

  lemma {:induction false} TrackedDrift(events: seq<Event>, env: Env, drifts: seq<IPDrift>, d: IPDrift)
    requires Lists(env, TrackAll(events), TrackAll(events).Keys, drifts) && d in drifts
    ensures d.key in KeysOf(events) && d.seen.count == multiset(KeysOf(events))[d.key]
            && d == Classified(env, d.key, d.seen)
  {
    TrackerIsExact(events, d.key);
    assert Classified(env, d.key, TrackAll(events)[d.key]).seen == TrackAll(events)[d.key];
  }

  lemma {:induction false} ReportedDrift(cycles: seq<Shadow.Cycle>, env: Env, r: Report, d: IPDrift)
    requires IsReport(cycles, env, r) && d in r.drifts
    ensures d.key in KeysOf(Events(cycles)) && d.key.direction in {FALSE_POSITIVE, FALSE_NEGATIVE}
    ensures d.seen.count == multiset(KeysOf(Events(cycles)))[d.key]
    ensures d == Classified(env, d.key, d.seen)
  {
    TrackedDrift(Events(cycles), env, r.drifts, d);
    KeyDirections(cycles, d.key);
  }

  lemma {:induction false} KeyDirections(cycles: seq<Shadow.Cycle>, k: Key)
    requires k in KeysOf(Events(cycles))
    ensures k.direction in {FALSE_POSITIVE, FALSE_NEGATIVE}
  {
    var i :| 0 <= i < |Events(cycles)| && KeysOf(Events(cycles))[i] == k;
    EventDirections(cycles, i);
  }

  /** Occurrence counts add up to the totals of `ComputeMetrics`: nothing is dropped or counted twice. */
  lemma {:induction false} OccurrencesAreConserved(
    cycles: seq<Shadow.Cycle>, env: Env, r: Report, now: int, m: Shadow.Metrics)
    requires IsReport(cycles, env, r) && Shadow.IsMetrics(cycles, now, m)
    ensures TotalOccurrences(r.drifts) == m.totalFalsePositives + m.totalFalseNegatives
  {
    var events := Events(cycles);
    var keys := KeysOf(events);
    forall d | d in r.drifts ensures d.seen.count == multiset(keys)[d.key] { ReportedDrift(cycles, env, r, d); }
    OccurrencesAreMultiplicities(r.drifts, multiset(keys));
    var ks := MapSeq(DriftKey, r.drifts);
    forall k | k in keys ensures k in ks {
      TrackerIsExact(events, k);
      assert k in Elements(ks);
    }
    SumCovers(ks, keys);
    EventsAreTotals(cycles);
  }

  ghost function TotalCount(counts: map<Class, nat>, ks: seq<Class>): nat {
    if ks == [] then 0 else TotalCount(counts, ks[..|ks| - 1]) + Count(counts, ks[|ks| - 1])
  }

  lemma {:induction false} TotalCountIsSum(counts: map<Class, nat>, ks: seq<Class>, classes: seq<Class>)
    requires Counts(counts, classes)
    ensures TotalCount(counts, ks) == SumOver(ks, multiset(classes))
  {
    if ks != [] { TotalCountIsSum(counts, ks[..|ks| - 1], classes); }
  }

  lemma {:induction false} CountsCover(counts: map<Class, nat>, classes: seq<Class>, ks: seq<Class>)
    requires Counts(counts, classes) && Distinct(ks) && counts.Keys <= Elements(ks)
    ensures TotalCount(counts, ks) == |classes|
  {
    TotalCountIsSum(counts, ks, classes);
    forall c | c in classes ensures c in ks { assert c in counts.Keys; }
    SumCovers(ks, classes);
  }

  lemma {:induction false} TrackerKeys(events: seq<Event>)
    ensures TrackAll(events).Keys == Elements(KeysOf(events)) && |TrackAll(events)| == |TrackAll(events).Keys|
  {
    forall k ensures k in TrackAll(events).Keys <==> k in Elements(KeysOf(events)) { TrackerIsExact(events, k); }
  }

  /** Class counts, added over any listing of the classes that occur, give the number of drifts, which is the number of
      distinct (address, direction) pairs in the history. */
  lemma {:induction false} ClassCountsAreConserved(cycles: seq<Shadow.Cycle>, env: Env, r: Report, ks: seq<Class>)
    requires IsReport(cycles, env, r)
    requires Distinct(ks) && r.classCounts.Keys <= Elements(ks)
    ensures TotalCount(r.classCounts, ks) == r.totalDriftEvents == |r.drifts|
    ensures r.totalDriftEvents == |Elements(KeysOf(Events(cycles)))|
  {
    CountsCover(r.classCounts, MapSeq(DriftClass, r.drifts), ks);
    DistinctSize(MapSeq(DriftKey, r.drifts));
    TrackerKeys(Events(cycles));
  }

  // ---------------------------------------------------------------- which classes occur

  /** Two classes are never reported, and the others fix the direction. */
  lemma {:induction false} ClassesThatOccur(cycles: seq<Shadow.Cycle>, env: Env, r: Report, d: IPDrift)
    requires IsReport(cycles, env, r) && d in r.drifts
    ensures d.class_ != Unknown && d.class_ != RuleCollapsing
    ensures d.class_ in {Allowlist, ConfidenceGate} ==> d.key.direction == FALSE_POSITIVE
    ensures d.class_ in {CidrRule, ModSecRule} ==> d.key.direction == FALSE_NEGATIVE
    ensures d.class_ in {ConfidenceGate, ModSecRule} ==> d.seen.count > 2
    ensures d.risk == RiskOf(d.class_)
  {
    ReportedDrift(cycles, env, r, d);
    ClassesOf(env, d.key, d.seen);
  }

  lemma {:induction false} ClassesOf(env: Env, k: Key, seen: Seen)
    requires k.direction in {FALSE_POSITIVE, FALSE_NEGATIVE}
    ensures var d := Classified(env, k, seen);
            && d.class_ != Unknown && d.class_ != RuleCollapsing && d.risk == RiskOf(d.class_)
            && (d.class_ in {Allowlist, ConfidenceGate} ==> k.direction == FALSE_POSITIVE)
            && (d.class_ in {CidrRule, ModSecRule} ==> k.direction == FALSE_NEGATIVE)
            && (d.class_ in {ConfidenceGate, ModSecRule} ==> seen.count > 2)
  {
  }

  ghost predicate Shielded(env: Env, ip: string) { env.isProtected.Some? && env.isProtected.value(ip) }

  ghost predicate OnAllowlist(env: Env, ip: string) { env.allowlist.Some? && ip in env.allowlist.value }

  /** No filter and no /24 rule explains the drift. */
  ghost predicate Open(env: Env, k: Key) {
    && !Shielded(env, k.ip)
    && !(k.direction == "false_positive" && OnAllowlist(env, k.ip))
    && !(k.direction == "false_negative" && env.insideCidr(k.ip))
  }

  /** The class the drift has, by what explains it. */
  ghost predicate RightClass(env: Env, d: IPDrift) {
    var ip, shielded := d.key.ip, Shielded(env, d.key.ip);
    && (d.key.direction == "false_positive" || d.key.direction == "false_negative")
    && (d.class_ == ProtectedIP <==> shielded)
    && (d.class_ == Allowlist <==> !shielded && d.key.direction == "false_positive" && OnAllowlist(env, ip))
    && (d.class_ == CidrRule <==> !shielded && d.key.direction == "false_negative" && env.insideCidr(ip))
    && (d.class_ == Timing <==> Open(env, d.key) && d.seen.count <= 2)
    && (d.class_ == ConfidenceGate <==> Open(env, d.key) && d.seen.count >= 3 && d.key.direction == "false_positive")
    && (d.class_ == ModSecRule <==> Open(env, d.key) && d.seen.count >= 3 && d.key.direction == "false_negative")
  }

  ghost predicate RightRisk(d: IPDrift) {
    && (d.risk == High <==> d.class_ == ProtectedIP)
    && (d.risk == Medium <==> d.class_ == Allowlist || d.class_ == ConfidenceGate)
    && (d.risk == Low <==> d.class_ == CidrRule || d.class_ == Timing || d.class_ == ModSecRule)
  }

  lemma {:induction false} ClassifiedRightly(env: Env, k: Key, seen: Seen)
    requires k.direction in {FALSE_POSITIVE, FALSE_NEGATIVE}
    ensures RightClass(env, Classified(env, k, seen)) && RightRisk(Classified(env, k, seen))
  {
  }

  /** Which class and which risk every drift of a report has: a drift nothing else explains is a matter of timing up to
      two occurrences and a gap from the third on. */
  lemma {:induction false} ClassifiedExactly(cycles: seq<Shadow.Cycle>, env: Env, r: Report, d: IPDrift)
    requires IsReport(cycles, env, r) && d in r.drifts
    ensures RightClass(env, d) && RightRisk(d)
  {
    ReportedDrift(cycles, env, r, d);
    ClassifiedRightly(env, d.key, d.seen);
  }

  /** The order of a report: high risks first, low risks last, and within a risk the more frequent first. */
  lemma {:induction false} ReportOrder(cycles: seq<Shadow.Cycle>, env: Env, r: Report, i: nat, j: nat)
    requires IsReport(cycles, env, r) && i < j < |r.drifts|
    ensures r.drifts[j].risk == High ==> r.drifts[i].risk == High
    ensures r.drifts[j].risk == Medium ==> r.drifts[i].risk == High || r.drifts[i].risk == Medium
    ensures r.drifts[i].risk == r.drifts[j].risk ==> r.drifts[i].seen.count >= r.drifts[j].seen.count
  {
    assert !DriftLess(r.drifts[j], r.drifts[i]);
    ClassifiedExactly(cycles, env, r, r.drifts[i]);
    ClassifiedExactly(cycles, env, r, r.drifts[j]);
  }

  ghost function GapIn(classes: multiset<Class>): Class -> Option<Gap> {
    (c: Class) => if classes[c] > 0 then Some(Gap(c, classes[c])) else None
  }

  /** The gaps of a report: of six classes, in this order, those that some drift has, with the number of its drifts. */
  lemma {:induction false} GapsExactly(cycles: seq<Shadow.Cycle>, env: Env, r: Report)
    requires IsReport(cycles, env, r)
    ensures var classes := multiset(MapSeq(DriftClass, r.drifts));
            && r.gaps == Collect(GapIn(classes),
                                 [ProtectedIP, Allowlist, ConfidenceGate, CidrRule, RuleCollapsing, ModSecRule])
            && r.timingCount == classes[Timing] && r.unexplainedCount == classes[Unknown]
            && r.cyclesAnalyzed == |cycles| && r.totalDriftEvents == |r.drifts|
            && forall c :: (c in r.classCounts <==> c in classes) && (c in classes ==> r.classCounts[c] == classes[c])
  {
    var classes := multiset(MapSeq(DriftClass, r.drifts));
    forall c ensures GapOf(r.classCounts, c) == GapIn(classes)(c) {}
    SameCollect((c: Class) => GapOf(r.classCounts, c), GapIn(classes), GAP_ORDER);
    DistinctSize(MapSeq(DriftKey, r.drifts));
    var tracker := TrackAll(Events(cycles));
    assert |tracker.Keys| == |tracker|;
  }

  lemma {:induction false} SameCollect<T(!new), U>(f: T -> Option<U>, g: T -> Option<U>, s: seq<T>)
    requires forall x :: f(x) == g(x)
    ensures Collect(f, s) == Collect(g, s)
  {
    if s != [] { SameCollect(f, g, s[..|s| - 1]); }
  }

  ghost function TotalGaps(gaps: seq<Gap>): nat {
    if gaps == [] then 0 else TotalGaps(gaps[..|gaps| - 1]) + gaps[|gaps| - 1].count
  }

  lemma {:induction false} TotalGapsStep(front: seq<Gap>, next: Option<Gap>)
    ensures TotalGaps(front + Kept(next)) == TotalGaps(front) + if next.Some? then next.value.count else 0
  {
    if next.Some? { assert (front + [next.value])[..|front|] == front; } else { assert front + [] == front; }
  }

  lemma {:induction false} GapsAreCounts(counts: map<Class, nat>, order: seq<Class>)
    ensures TotalGaps(Gaps(counts, order)) == TotalCount(counts, order)
  {
    if order != [] {
      var n := |order| - 1;
      GapsAreCounts(counts, order[..n]);
      CollectStep((c: Class) => GapOf(counts, c), order, n);
      assert order[..n + 1] == order;
      TotalGapsStep(Gaps(counts, order[..n]), GapOf(counts, order[n]));
    }
  }

  lemma {:induction false} ReportedClass(cycles: seq<Shadow.Cycle>, env: Env, r: Report, c: Class)
    requires IsReport(cycles, env, r) && c in r.classCounts
    ensures c != Unknown && c != RuleCollapsing
  {
    var classes := MapSeq(DriftClass, r.drifts);
    assert c in classes;
    var i :| 0 <= i < |classes| && classes[i] == c;
    ClassesThatOccur(cycles, env, r, r.drifts[i]);
  }

  /** Nothing stays unexplained: the listed gaps and the timing differences account for every drift. */
  lemma {:induction false} EveryDriftIsExplained(cycles: seq<Shadow.Cycle>, env: Env, r: Report)
    requires IsReport(cycles, env, r)
    ensures r.unexplainedCount == 0 && RuleCollapsing !in r.classCounts
    ensures TotalGaps(r.gaps) + r.timingCount == r.totalDriftEvents
  {
    forall c | c in r.classCounts ensures c != Unknown && c != RuleCollapsing { ReportedClass(cycles, env, r, c); }
    ListedClassesCover(r.classCounts);
    ClassCountsAreConserved(cycles, env, r, GAP_ORDER + [Timing]);
    GapsAreCounts(r.classCounts, GAP_ORDER);
  }

  lemma {:induction false} ListedClassesCover(counts: map<Class, nat>)
    requires Unknown !in counts
    ensures Distinct(GAP_ORDER + [Timing]) && counts.Keys <= Elements(GAP_ORDER + [Timing])
  {
    forall c | c in counts.Keys ensures c in Elements(GAP_ORDER + [Timing]) { EveryOtherClassIsListed(c); }
  }

  lemma {:induction false} EveryOtherClassIsListed(c: Class)
    requires c != Unknown
    ensures c in GAP_ORDER + [Timing]
  {
    var ks := GAP_ORDER + [Timing];
    assert ks[0] == ProtectedIP && ks[1] == Allowlist && ks[2] == ConfidenceGate && ks[3] == CidrRule;
    assert ks[4] == RuleCollapsing && ks[5] == ModSecRule && ks[6] == Timing;
  }

  // ---------------------------------------------------------------- histories of planned cycles

  predicate Appears(c: Shadow.Cycle, k: Key) {
    || (k.direction == FALSE_POSITIVE && k.ip in c.falsePositives)
    || (k.direction == FALSE_NEGATIVE && k.ip in c.falseNegatives)
  }

  ghost function CyclesWith(cycles: seq<Shadow.Cycle>, k: Key): nat {
    if cycles == [] then 0
    else CyclesWith(cycles[..|cycles| - 1], k) + if Appears(cycles[|cycles| - 1], k) then 1 else 0
  }

  lemma {:induction false} ListMultiplicity(ips: seq<string>, direction: string, at: int, k: Key)
    requires Distinct(ips)
    ensures multiset(KeysOf(EventsOf(ips, direction, at)))[k] == if k.direction == direction && k.ip in ips then 1
            else 0
  {
    var keys := KeysOf(EventsOf(ips, direction, at));
    assert |keys| == |ips| && forall i :: 0 <= i < |ips| ==> keys[i] == Key(ips[i], direction);
    assert Distinct(keys);
    DistinctMultiset(keys);
    if k.direction == direction && k.ip in ips {
      var i :| 0 <= i < |ips| && ips[i] == k.ip;
      assert keys[i] == k;
    } else {
      assert k !in keys;
    }
  }

  lemma {:induction false} KeysAppend(a: seq<Event>, b: seq<Event>)
    ensures KeysOf(a + b) == KeysOf(a) + KeysOf(b)
  {
  }

  lemma {:induction false} CycleMultiplicity(c: Shadow.Cycle, k: Key)
    requires Distinct(c.falsePositives) && Distinct(c.falseNegatives)
    ensures multiset(KeysOf(CycleEvents(c)))[k] == if Appears(c, k) then 1 else 0
  {
    KeysAppend(EventsOf(c.falsePositives, FALSE_POSITIVE, c.at), EventsOf(c.falseNegatives, FALSE_NEGATIVE, c.at));
    ListMultiplicity(c.falsePositives, FALSE_POSITIVE, c.at, k);
    ListMultiplicity(c.falseNegatives, FALSE_NEGATIVE, c.at, k);
  }

  lemma {:induction false} MultiplicityIsCycles(cycles: seq<Shadow.Cycle>, k: Key)
    requires forall i :: 0 <= i < |cycles| ==> Distinct(cycles[i].falsePositives) && Distinct(cycles[i].falseNegatives)
    ensures multiset(KeysOf(Events(cycles)))[k] == CyclesWith(cycles, k)
  {
    if cycles != [] {
      var n := |cycles| - 1;
      MultiplicityIsCycles(cycles[..n], k);
      KeysAppend(Events(cycles[..n]), CycleEvents(cycles[n]));
      CycleMultiplicity(cycles[n], k);
    }
  }

  /** A recorded cycle with what it was planned from: its inputs and the rules listed then. */
  datatype Recorded = Recorded(inputs: BanSync.Inputs, listed: set<string>, cycle: Shadow.Cycle)

  function CycleOf(x: Recorded): Shadow.Cycle { x.cycle }

  ghost function CyclesOf(history: seq<Recorded>): seq<Shadow.Cycle> { MapSeq(CycleOf, history) }

  /** The cycle was recorded by `Compare` from a plan that `buildSyncPlan` made. */
  ghost predicate Planned(lib: BanSync.IpLib, x: Recorded) {
    exists plan :: BanSync.IsPlan(BanSync.Eligible(lib, x.inputs), x.listed, plan)
      && x.cycle == Shadow.CycleOf(plan, x.cycle.at)
  }

  ghost predicate PlannedHistory(lib: BanSync.IpLib, history: seq<Recorded>) {
    forall i :: 0 <= i < |history| ==> Planned(lib, history[i])
  }

  lemma {:induction false} PlannedLists(lib: BanSync.IpLib, x: Recorded)
    requires Planned(lib, x)
    ensures Distinct(x.cycle.falsePositives) && Distinct(x.cycle.falseNegatives)
    ensures forall ip :: ip in x.cycle.falsePositives <==> ip in BanSync.Eligible(lib, x.inputs) && ip !in x.listed
    ensures forall ip :: ip in x.cycle.falseNegatives <==> ip in x.listed && ip !in BanSync.Eligible(lib, x.inputs)
  {
    var plan :| BanSync.IsPlan(BanSync.Eligible(lib, x.inputs), x.listed, plan)
      && x.cycle == Shadow.CycleOf(plan, x.cycle.at);
    assert forall ip :: ip in plan.toAdd <==> ip in Elements(plan.toAdd);
    assert forall ip :: ip in plan.toDelete <==> ip in Elements(plan.toDelete);
  }

  /** For recorded plans an occurrence count is the number of cycles the address appeared in, as documented. */
  lemma {:induction false} OccurrenceCountIsCycles(
    lib: BanSync.IpLib, history: seq<Recorded>, env: Env, r: Report, d: IPDrift)
    requires PlannedHistory(lib, history) && IsReport(CyclesOf(history), env, r) && d in r.drifts
    ensures d.seen.count == CyclesWith(CyclesOf(history), d.key) && 1 <= d.seen.count <= r.cyclesAnalyzed
  {
    var cycles := CyclesOf(history);
    ReportedDrift(cycles, env, r, d);
    forall i | 0 <= i < |cycles| ensures Distinct(cycles[i].falsePositives) && Distinct(cycles[i].falseNegatives) {
      PlannedLists(lib, history[i]);
    }
    MultiplicityIsCycles(cycles, d.key);
    AtMostAll(cycles, d.key);
  }

  lemma {:induction false} AtMostAll(cycles: seq<Shadow.Cycle>, k: Key)
    ensures CyclesWith(cycles, k) <= |cycles|
  {
    if cycles != [] { AtMostAll(cycles[..|cycles| - 1], k); }
  }

  // ---------------------------------------------------------------- which drifts are reported

  lemma {:induction false} KeyInCycle(c: Shadow.Cycle, k: Key)
    ensures k in KeysOf(CycleEvents(c)) <==> Appears(c, k)
  {
    var fp, fn := EventsOf(c.falsePositives, FALSE_POSITIVE, c.at), EventsOf(c.falseNegatives, FALSE_NEGATIVE, c.at);
    KeysAppend(fp, fn);
    assert k in KeysOf(fp) + KeysOf(fn) <==> k in KeysOf(fp) || k in KeysOf(fn);
  }

  lemma {:induction false} KeyInEvents(cycles: seq<Shadow.Cycle>, k: Key)
    ensures k in KeysOf(Events(cycles)) <==> exists i :: 0 <= i < |cycles| && Appears(cycles[i], k)
  {
    if cycles != [] {
      var n := |cycles| - 1;
      var front, last := cycles[..n], cycles[n];
      KeyInEvents(front, k);
      KeyInCycle(last, k);
      KeysAppend(Events(front), CycleEvents(last));
      var a, b := KeysOf(Events(front)), KeysOf(CycleEvents(last));
      assert k in a + b <==> k in a || k in b;
      if i :| 0 <= i < |front| && Appears(front[i], k) { assert Appears(cycles[i], k); }
      if i :| 0 <= i < |cycles| && Appears(cycles[i], k) { assert i < n ==> Appears(front[i], k); }
    }
  }

  /** A key is reported exactly if it appears in some cycle. */
  lemma {:induction false} ReportedExactly(cycles: seq<Shadow.Cycle>, env: Env, r: Report, k: Key)
    requires IsReport(cycles, env, r)
    ensures (exists d :: d in r.drifts && d.key == k) <==> exists i :: 0 <= i < |cycles| && Appears(cycles[i], k)
  {
    KeyInEvents(cycles, k);
    ReportedKeys(Events(cycles), env, r.drifts, k);
  }

  lemma {:induction false} ReportedKeys(events: seq<Event>, env: Env, drifts: seq<IPDrift>, k: Key)
    requires Lists(env, TrackAll(events), TrackAll(events).Keys, drifts)
    ensures (exists d :: d in drifts && d.key == k) <==> k in KeysOf(events)
  {
    TrackerIsExact(events, k);
    var ks := MapSeq(DriftKey, drifts);
    assert k in KeysOf(events) <==> k in Elements(ks);
    if k in ks {
      var i :| 0 <= i < |ks| && ks[i] == k;
      assert drifts[i] in drifts && drifts[i].key == k;
    }
    if d :| d in drifts && d.key == k {
      var i :| 0 <= i < |drifts| && drifts[i] == d;
      assert ks[i] == k;
    }
  }

  /** The shield that made the plans protects the addresses that the classifier's does, however either is passed. */
  ghost predicate SameShield(history: seq<Recorded>, env: Env) {
    forall i, ip :: 0 <= i < |history| ==> (BanSync.Protected(history[i].inputs, ip) <==> Shielded(env, ip))
  }

  /** No false positive of a planned history was protected, or on the allowlist, in its own cycle. */
  lemma {:induction false} FalsePositiveWasClear(lib: BanSync.IpLib, history: seq<Recorded>, i: nat, ip: string)
    requires BanSync.Normalizing(lib) && PlannedHistory(lib, history)
    requires i < |history| && ip in history[i].cycle.falsePositives
    ensures !BanSync.Protected(history[i].inputs, ip) && !AllowlistNames(lib, history[i].inputs, ip)
  {
    PlannedLists(lib, history[i]);
  }

  lemma {:induction false} ReportedAppears(
    history: seq<Recorded>, env: Env, r: Report, d: IPDrift) returns (i: nat)
    requires IsReport(CyclesOf(history), env, r) && d in r.drifts
    ensures i < |history| && Appears(history[i].cycle, d.key)
  {
    ReportedExactly(CyclesOf(history), env, r, d.key);
    i :| 0 <= i < |history| && Appears(CyclesOf(history)[i], d.key);
  }

  lemma {:induction false} AppearingIsReported(
    history: seq<Recorded>, env: Env, r: Report, i: nat, k: Key) returns (d: IPDrift)
    requires IsReport(CyclesOf(history), env, r) && i < |history| && Appears(history[i].cycle, k)
    ensures d in r.drifts && d.key == k
  {
    assert Appears(CyclesOf(history)[i], k);
    ReportedExactly(CyclesOf(history), env, r, k);
    d :| d in r.drifts && d.key == k;
  }

  lemma {:induction false} FilterClasses(cycles: seq<Shadow.Cycle>, env: Env, r: Report, d: IPDrift)
    requires IsReport(cycles, env, r) && d in r.drifts
    ensures d.key.direction in {FALSE_POSITIVE, FALSE_NEGATIVE}
    ensures d.class_ == ProtectedIP <==> Shielded(env, d.key.ip)
    ensures d.class_ == Allowlist <==>
            d.key.direction == FALSE_POSITIVE && OnAllowlist(env, d.key.ip) && !Shielded(env, d.key.ip)
  {
    ReportedDrift(cycles, env, r, d);
    ClassesOfFilters(env, d.key, d.seen);
  }

  lemma {:induction false} ClassesOfFilters(env: Env, k: Key, seen: Seen)
    ensures Classified(env, k, seen).class_ == ProtectedIP <==> Shielded(env, k.ip)
    ensures Classified(env, k, seen).class_ == Allowlist <==>
            k.direction == FALSE_POSITIVE && OnAllowlist(env, k.ip) && !Shielded(env, k.ip)
  {
  }

  /** In a planned history under an unchanged shield a drift is "protected" exactly if it is a false negative of a
      protected address, and "allowlist" exactly if it is a false positive of an address that is on the allowlist by
      now. */
  lemma {:induction false} FilterClassesExactly(
    lib: BanSync.IpLib, history: seq<Recorded>, env: Env, r: Report, d: IPDrift)
    requires BanSync.Normalizing(lib) && PlannedHistory(lib, history) && SameShield(history, env)
    requires IsReport(CyclesOf(history), env, r) && d in r.drifts
    ensures d.class_ == ProtectedIP <==> d.key.direction == FALSE_NEGATIVE && Shielded(env, d.key.ip)
    ensures d.class_ == Allowlist <==> d.key.direction == FALSE_POSITIVE && OnAllowlist(env, d.key.ip)
  {
    FilterClasses(CyclesOf(history), env, r, d);
    if d.key.direction == FALSE_POSITIVE {
      var i := ReportedAppears(history, env, r, d);
      FalsePositiveWasClear(lib, history, i, d.key.ip);
    }
  }

  ghost predicate ReportedAs(r: Report, ip: string, c: Class) {
    exists d :: d in r.drifts && d.key.ip == ip && d.class_ == c
  }

  /** Some cycle planned to change the address's rule: it was listed and not eligible, or eligible and not listed. */
  ghost predicate Drifted(lib: BanSync.IpLib, x: Recorded, ip: string) {
    (ip in x.listed) != (ip in BanSync.Eligible(lib, x.inputs))
  }

  lemma {:induction false} DriftedAppears(lib: BanSync.IpLib, x: Recorded, ip: string)
    requires Planned(lib, x)
    ensures Drifted(lib, x, ip) <==>
            Appears(x.cycle, Key(ip, FALSE_POSITIVE)) || Appears(x.cycle, Key(ip, FALSE_NEGATIVE))
  {
    PlannedLists(lib, x);
  }

  /** Whatever shields made the plans, an address is reported as protected exactly if it is by now and its rule drifted
      in some cycle; where it drifted as a false positive, that cycle's own shield did not protect it. */
  lemma {:induction false} ProtectedMeansDrifted(
    lib: BanSync.IpLib, history: seq<Recorded>, env: Env, r: Report, ip: string)
    requires BanSync.Normalizing(lib) && PlannedHistory(lib, history) && IsReport(CyclesOf(history), env, r)
    ensures ReportedAs(r, ip, ProtectedIP) <==>
            Shielded(env, ip) && exists i :: 0 <= i < |history| && Drifted(lib, history[i], ip)
    ensures forall i :: 0 <= i < |history| && ip in history[i].cycle.falsePositives ==>
              !BanSync.Protected(history[i].inputs, ip)
  {
    if d :| d in r.drifts && d.key.ip == ip && d.class_ == ProtectedIP {
      FilterClasses(CyclesOf(history), env, r, d);
      var i := ReportedAppears(history, env, r, d);
      DriftedAppears(lib, history[i], ip);
    }
    if Shielded(env, ip) && exists i :: 0 <= i < |history| && Drifted(lib, history[i], ip) {
      var i :| 0 <= i < |history| && Drifted(lib, history[i], ip);
      DriftedIsReported(lib, history, env, r, ip, i);
    }
    forall i | 0 <= i < |history| && ip in history[i].cycle.falsePositives
      ensures !BanSync.Protected(history[i].inputs, ip)
    {
      FalsePositiveWasClear(lib, history, i, ip);
    }
  }

  lemma {:induction false} DriftedIsReported(
    lib: BanSync.IpLib, history: seq<Recorded>, env: Env, r: Report, ip: string, i: nat)
    requires PlannedHistory(lib, history) && IsReport(CyclesOf(history), env, r)
    requires Shielded(env, ip) && i < |history| && Drifted(lib, history[i], ip)
    ensures ReportedAs(r, ip, ProtectedIP)
  {
    DriftedAppears(lib, history[i], ip);
    var k := if Appears(history[i].cycle, Key(ip, FALSE_POSITIVE)) then Key(ip, FALSE_POSITIVE)
      else Key(ip, FALSE_NEGATIVE);
    var d := AppearingIsReported(history, env, r, i, k);
    FilterClasses(CyclesOf(history), env, r, d);
  }

  /** Under an unchanged shield a protected address is reported exactly if some cycle found a rule for it: a leftover
      rule, and not, as documented, only an address the sync was about to ban. */
  lemma {:induction false} ProtectedMeansLeftoverRule(
    lib: BanSync.IpLib, history: seq<Recorded>, env: Env, r: Report, ip: string)
    requires BanSync.Normalizing(lib) && PlannedHistory(lib, history) && SameShield(history, env)
    requires IsReport(CyclesOf(history), env, r)
    ensures ReportedAs(r, ip, ProtectedIP) <==>
            Shielded(env, ip) && exists i :: 0 <= i < |history| && ip in history[i].listed
  {
    ProtectedMeansDrifted(lib, history, env, r, ip);
    if Shielded(env, ip) {
      forall i | 0 <= i < |history| ensures Drifted(lib, history[i], ip) <==> ip in history[i].listed {
        ShieldedIsNotEligible(lib, history, env, i, ip);
      }
    }
  }

  lemma {:induction false} ShieldedIsNotEligible(
    lib: BanSync.IpLib, history: seq<Recorded>, env: Env, i: nat, ip: string)
    requires SameShield(history, env) && i < |history| && Shielded(env, ip)
    ensures ip !in BanSync.Eligible(lib, history[i].inputs)
  {
    assert BanSync.Protected(history[i].inputs, ip);
  }

  lemma {:induction false} AllowlistedIsReported(
    history: seq<Recorded>, env: Env, r: Report, ip: string, i: nat)
    requires IsReport(CyclesOf(history), env, r) && OnAllowlist(env, ip) && !Shielded(env, ip)
    requires i < |history| && ip in history[i].cycle.falsePositives
    ensures ReportedAs(r, ip, Allowlist)
  {
    var d := AppearingIsReported(history, env, r, i, Key(ip, FALSE_POSITIVE));
    FilterClasses(CyclesOf(history), env, r, d);
  }

  /** Whatever shields made the plans, an unprotected address is reported as allowlisted exactly if it is by now and
      some cycle was about to ban it, which means it was not on the allowlist of that cycle, or that allowlist could
      not be fetched. */
  lemma {:induction false} AllowlistMeansAddedLater(
    lib: BanSync.IpLib, history: seq<Recorded>, env: Env, r: Report, ip: string)
    requires BanSync.Normalizing(lib) && PlannedHistory(lib, history) && IsReport(CyclesOf(history), env, r)
    ensures ReportedAs(r, ip, Allowlist) <==>
            && OnAllowlist(env, ip) && !Shielded(env, ip)
            && exists i :: 0 <= i < |history| && ip in history[i].cycle.falsePositives
    ensures forall i :: 0 <= i < |history| && ip in history[i].cycle.falsePositives ==>
              !AllowlistNames(lib, history[i].inputs, ip)
  {
    if d :| d in r.drifts && d.key.ip == ip && d.class_ == Allowlist {
      FilterClasses(CyclesOf(history), env, r, d);
      var i := ReportedAppears(history, env, r, d);
      assert ip in history[i].cycle.falsePositives;
    }
    if OnAllowlist(env, ip) && !Shielded(env, ip)
       && exists i :: 0 <= i < |history| && ip in history[i].cycle.falsePositives {
      var i :| 0 <= i < |history| && ip in history[i].cycle.falsePositives;
      AllowlistedIsReported(history, env, r, ip, i);
    }
    forall i | 0 <= i < |history| && ip in history[i].cycle.falsePositives
      ensures !AllowlistNames(lib, history[i].inputs, ip)
    {
      FalsePositiveWasClear(lib, history, i, ip);
    }
  }

  /** Today's allowlist addresses were on the allowlist of every cycle. */
  ghost predicate SameAllowlist(lib: BanSync.IpLib, history: seq<Recorded>, env: Env) {
    forall i, ip :: 0 <= i < |history| && OnAllowlist(env, ip) ==> AllowlistNames(lib, history[i].inputs, ip)
  }

  ghost predicate AllowlistNames(lib: BanSync.IpLib, inputs: BanSync.Inputs, ip: string) {
    inputs.allowlist.Some? && BanSync.SomeEntryCovers(lib, inputs.allowlist.value, ip)
  }

  /** With both filters unchanged since the first cycle no false positive is due to a filter. */
  lemma {:induction false} FiltersLeaveNoFalsePositive(
    lib: BanSync.IpLib, history: seq<Recorded>, env: Env, r: Report, d: IPDrift)
    requires BanSync.Normalizing(lib) && PlannedHistory(lib, history) && SameShield(history, env)
    requires SameAllowlist(lib, history, env) && IsReport(CyclesOf(history), env, r) && d in r.drifts
    ensures d.class_ != Allowlist
    ensures d.class_ == ProtectedIP ==> d.key.direction == FALSE_NEGATIVE
  {
    FilterClassesExactly(lib, history, env, r, d);
    if d.class_ == Allowlist {
      var i := ReportedAppears(history, env, r, d);
      assert AllowlistNames(lib, history[i].inputs, d.key.ip);
      AllowlistMeansAddedLater(lib, history, env, r, d.key.ip);
    }
  }

  // ---------------------------------------------------------------- both classes do occur

  /** Addresses that read as themselves. */
  ghost function PlainLib(): BanSync.IpLib { BanSync.IpLib(s => Some(s), s => None, (n, ip) => false) }

  /** A protected address whose old rule is still there. */
  lemma {:induction false} LeftoverRuleExample() returns (history: seq<Recorded>, env: Env)
    ensures PlannedHistory(PlainLib(), history) && SameShield(history, env) && BanSync.Normalizing(PlainLib())
    ensures forall r :: IsReport(CyclesOf(history), env, r) ==> ReportedAs(r, "10.0.0.1", ProtectedIP)
  {
    var ip, shield := "10.0.0.1", Some((ip: string) => true);
    var x := OneRule(ip, shield);
    history, env := [x], Env(shield, None, s => false);
    assert ip in history[0].listed;
    LeftoverAlwaysReported(PlainLib(), history, env, ip);
  }

  lemma {:induction false} LeftoverAlwaysReported(lib: BanSync.IpLib, history: seq<Recorded>, env: Env, ip: string)
    requires BanSync.Normalizing(lib) && PlannedHistory(lib, history) && SameShield(history, env)
    requires Shielded(env, ip) && exists i :: 0 <= i < |history| && ip in history[i].listed
    ensures forall r :: IsReport(CyclesOf(history), env, r) ==> ReportedAs(r, ip, ProtectedIP)
  {
    forall r | IsReport(CyclesOf(history), env, r) ensures ReportedAs(r, ip, ProtectedIP) {
      ProtectedMeansLeftoverRule(lib, history, env, r, ip);
    }
  }

  lemma {:induction false} OneRule(ip: string, shield: Option<string -> bool>) returns (x: Recorded)
    ensures Planned(PlainLib(), x) && x.inputs.shield == shield && x.listed == {ip}
  {
    var inputs := BanSync.Inputs([], shield, None);
    var plan := BanSync.SyncPlan({}, {ip}, [], [ip]);
    assert BanSync.Eligible(PlainLib(), inputs) == {};
    assert Elements(plan.toDelete) == {ip};
    x := Recorded(inputs, {ip}, Shadow.CycleOf(plan, 1));
    assert BanSync.IsPlan(BanSync.Eligible(PlainLib(), inputs), x.listed, plan);
  }

  /** An address that was allowlisted after the cycle that was about to ban it. */
  lemma {:induction false} LaterAllowlistExample() returns (history: seq<Recorded>, env: Env)
    ensures PlannedHistory(PlainLib(), history) && SameShield(history, env)
    ensures |history| == 1 && history[0].inputs.allowlist == Some([])
    ensures forall r :: IsReport(CyclesOf(history), env, r) ==> ReportedAs(r, "192.0.2.1", Allowlist)
  {
    var ip := "192.0.2.1";
    var x := OneBan(ip);
    history, env := [x], Env(None, Some({ip}), s => false);
    assert ip in history[0].cycle.falsePositives;
    AllowlistedAlwaysReported(history, env, ip, 0);
  }

  lemma {:induction false} AllowlistedAlwaysReported(history: seq<Recorded>, env: Env, ip: string, i: nat)
    requires OnAllowlist(env, ip) && !Shielded(env, ip) && i < |history| && ip in history[i].cycle.falsePositives
    ensures forall r :: IsReport(CyclesOf(history), env, r) ==> ReportedAs(r, ip, Allowlist)
  {
    forall r | IsReport(CyclesOf(history), env, r) ensures ReportedAs(r, ip, Allowlist) {
      AllowlistedIsReported(history, env, r, ip, i);
    }
  }

  lemma {:induction false} OneBan(ip: string) returns (x: Recorded)
    ensures Planned(PlainLib(), x) && x.inputs.shield == None && x.inputs.allowlist == Some([])
    ensures ip in x.cycle.falsePositives
  {
    var inputs := BanSync.Inputs([ip], None, Some([]));
    var plan := BanSync.SyncPlan({ip}, {}, [ip], []);
    assert ip in inputs.bans && PlainLib().parseIP(ip) == Some(ip) && !BanSync.Excluded(PlainLib(), inputs, ip);
    assert BanSync.Eligible(PlainLib(), inputs) == {ip};
    assert Elements(plan.toAdd) == {ip};
    x := Recorded(inputs, {}, Shadow.CycleOf(plan, 1));
    assert BanSync.IsPlan(BanSync.Eligible(PlainLib(), inputs), x.listed, plan);
  }
}
