/** The WAF replay cursor and the query behind it, over failures, restarts and late events. */
module WafReplay {
  import opened Orders

  // The pieces are `runWAFReplayIteration`, `loadWAFReplayCursor`, `replayQuerySince`, `nextWAFReplayCursor`, the
  // high watermark of `cloudflareevent.Service.ProcessSince`, and the query of
  // `discovery.Client.ListWAFEventsSince`, which asks for the newest fifty events strictly inside a window of whole
  // seconds.  Times are integers (nanoseconds after Go's zero time, so 0 is the zero time).  An event carries the
  // time it happened and the time from which the provider shows it.

  const SECOND := 1_000_000_000
  const MINUTE := 60 * SECOND
  const OVERLAP := 10 * MINUTE
  const LIMIT := 50

  datatype Event = Event(id: nat, time: int, visible: int)

  /** Events are not listed before they happen, and appear at most the overlap later. */
  ghost predicate Timely(events: set<Event>) {
    forall e :: e in events ==> 0 < e.time <= e.visible <= e.time + 600_000_000_000
  }

  // ---------------------------------------------------------------- the pure pieces

  function ReplayQuerySince(since: int, overlap: int): int {
    if since == 0 then since else if overlap <= 0 then since else since - overlap
  }

  function NextCursor(highWatermark: int, previous: int, now: int): int {
    if highWatermark > previous then highWatermark
    else if now > previous then now
    else previous
  }

  /** RFC 3339 without a fraction: the time is cut down to whole seconds. */
  function Seconds(t: int): int { t - t % SECOND }

  /** When a query is made: the upper bound it names, and the time the provider answers. */
  datatype Instant = Instant(until: int, answered: int)

  /** The provider shows the event by then, and the upper bound of the filter lets it through. */
  predicate Ready(e: Event, at: Instant) { e.visible <= at.answered && e.time < Seconds(at.until) }

  predicate Listed(e: Event, from: int, at: Instant) { Ready(e, at) && e.time > Seconds(from) }

  ghost function Window(events: set<Event>, from: int, at: Instant): set<Event> {
    set e | e in events && Listed(e, from, at)
  }

  // ---------------------------------------------------------------- the page

  ghost function PageSize(listed: set<Event>): nat { if |listed| < LIMIT then |listed| else LIMIT }

  /** An answer to the query: the newest events of the window, as many as the limit allows, ties broken in any way. */
  ghost predicate IsPage(listed: set<Event>, page: seq<Event>) {
    && Distinct(page) && Elements(page) <= listed && |page| == PageSize(listed)
    && forall e, f :: e in listed && e !in page && f in page ==> e.time <= f.time
  }

  ghost function AsNew(listed: set<Event>, e: Event): set<Event> { set f | f in listed && f != e && f.time >= e.time }

  ghost function Newer(listed: set<Event>, e: Event): set<Event> { set f | f in listed && f.time > e.time }

  lemma {:induction false} FewRivalsIsOnPage(listed: set<Event>, page: seq<Event>, e: Event)
    requires IsPage(listed, page) && e in listed && |AsNew(listed, e)| < 50
    ensures e in page
  {
    DistinctSize(page);
    SubsetSize(Elements(page), listed);
    if e !in page {
      SubsetSize(Elements(page), AsNew(listed, e));
    }
  }

  lemma {:induction false} ManyNewerIsOffPage(listed: set<Event>, page: seq<Event>, e: Event)
    requires IsPage(listed, page) && e in listed && |Newer(listed, e)| >= 50
    ensures e !in page
  {
    DistinctSize(page);
    if e in page {
      assert forall f :: f in Newer(listed, e) ==> f in page;
      SubsetSize(Newer(listed, e) + {e}, Elements(page));
    }
  }

  /** Some event is at least as new as all others. */
  lemma {:induction false} NewestExists(s: set<Event>) returns (m: Event)
    requires s != {}
    ensures m in s && forall e :: e in s ==> e.time <= m.time
    decreases |s|
  {
    m :| m in s;
    var rest := s - {m};
    if rest != {} {
      var n := NewestExists(rest);
      if n.time > m.time { m := n; }
    }
  }

  /** The `k` newest of a set, some way of breaking ties. */
  lemma {:induction false} TopExists(s: set<Event>, k: nat) returns (top: seq<Event>)
    requires k <= |s|
    ensures Distinct(top) && Elements(top) <= s && |top| == k
    ensures forall e, f :: e in s && e !in top && f in top ==> e.time <= f.time
    decreases k
  {
    if k == 0 {
      top := [];
    } else {
      var m := NewestExists(s);
      var rest := TopExists(s - {m}, k - 1);
      top := rest + [m];
      AppendElement(rest, m);
      assert forall e :: e in rest ==> e in Elements(rest);
    }
  }

  lemma {:induction false} PageWithout(listed: set<Event>, e: Event) returns (page: seq<Event>)
    requires e in listed && |AsNew(listed, e)| >= 50
    ensures IsPage(listed, page) && e !in page
  {
    var rivals := AsNew(listed, e);
    SubsetSize(rivals, listed);
    page := TopExists(rivals, 50);
    assert forall f :: f in page ==> f in Elements(page);
    assert e !in page;
  }

  lemma {:induction false} AllOf(s: set<Event>) returns (all: seq<Event>)
    ensures Distinct(all) && Elements(all) == s && |all| == |s|
  {
    all := TopExists(s, |s|);
    DistinctSize(all);
    SubsetSize(Elements(all), s);
  }

  lemma {:induction false} PageInThree(listed: set<Event>, e: Event, a: seq<Event>, b: seq<Event>)
    requires e in listed && Distinct(a) && Elements(a) == Newer(listed, e)
    requires Distinct(b) && Elements(b) <= listed - Newer(listed, e) - {e} && |a| + 1 + |b| == PageSize(listed)
    requires forall x, f :: x in listed - Newer(listed, e) - {e} && x !in b && f in b ==> x.time <= f.time
    ensures IsPage(listed, a + [e] + b)
  {
    var page := a + [e] + b;
    assert Elements([e]) == {e};
    DistinctJoin(a, [e]);
    DistinctJoin(a + [e], b);
    forall x, f | x in listed && x !in page && f in page ensures x.time <= f.time {
      assert x !in Elements(page) && f in Elements(page);
      assert f in Newer(listed, e) || f == e || f in Elements(b);
    }
  }

  lemma {:induction false} PageWith(listed: set<Event>, e: Event) returns (page: seq<Event>)
    requires e in listed && |Newer(listed, e)| < 50
    ensures IsPage(listed, page) && e in page
  {
    var newer := Newer(listed, e);
    var rest := listed - newer - {e};
    var a := AllOf(newer);
    var b := TopExists(rest, PageSize(listed) - |newer| - 1);
    PageInThree(listed, e, a, b);
    page := a + [e] + b;
    assert page[|a|] == e;
  }

  /** Which listed events a query returns: for certain if and only if fewer than fifty others are as new, possibly if
      and only if fewer than fifty are newer. */
  lemma {:induction false} FetchedExactly(listed: set<Event>, e: Event)
    ensures (forall page :: IsPage(listed, page) ==> e in page) <==> e in listed && |AsNew(listed, e)| < 50
    ensures (exists page :: IsPage(listed, page) && e in page) <==> e in listed && |Newer(listed, e)| < 50
  {
    var any := TopExists(listed, PageSize(listed));
    assert IsPage(listed, any);
    if e in listed {
      if |AsNew(listed, e)| < 50 {
        forall page | IsPage(listed, page) ensures e in page { FewRivalsIsOnPage(listed, page, e); }
      } else {
        var without := PageWithout(listed, e);
      }
      if |Newer(listed, e)| < 50 {
        var with := PageWith(listed, e);
      } else {
        forall page | IsPage(listed, page) ensures e !in page { ManyNewerIsOffPage(listed, page, e); }
      }
    } else {
      forall page | IsPage(listed, page) ensures e !in page { assert e !in Elements(page); }
    }
  }

  // ---------------------------------------------------------------- the high watermark

  /** The latest event time, or the zero time when nothing was fetched. */
  ghost function HighWatermark(fetched: seq<Event>): int {
    if fetched == [] then 0
    else
      var hw, last := HighWatermark(fetched[..|fetched| - 1]), fetched[|fetched| - 1];
      if last.time > hw then last.time else hw
  }

  method ScanHighWatermark(fetched: seq<Event>) returns (hw: int)
    ensures hw == HighWatermark(fetched)
  {
    hw := 0;
    for i := 0 to |fetched|
      invariant hw == HighWatermark(fetched[..i])
    {
      assert fetched[..i + 1][..i] == fetched[..i];
      if fetched[i].time > hw { hw := fetched[i].time; }
    }
    assert fetched[..|fetched|] == fetched;
  }

  lemma {:induction false} WatermarkIsMaximum(fetched: seq<Event>)
    ensures HighWatermark(fetched) >= 0
    ensures forall e :: e in fetched ==> e.time <= HighWatermark(fetched)
    ensures HighWatermark(fetched) > 0 ==> exists e :: e in fetched && e.time == HighWatermark(fetched)
  {
    if fetched != [] {
      var front, last := fetched[..|fetched| - 1], fetched[|fetched| - 1];
      assert fetched == front + [last];
      WatermarkIsMaximum(front);
      assert last in fetched;
    }
  }

  /** The limit does not touch the cursor: whatever page is returned, its watermark is that of the window. */
  lemma {:induction false} WatermarkIgnoresTies(listed: set<Event>, a: seq<Event>, b: seq<Event>)
    requires IsPage(listed, a) && IsPage(listed, b)
    ensures HighWatermark(a) == HighWatermark(b)
  {
    WatermarkAtMost(listed, a, b);
    WatermarkAtMost(listed, b, a);
  }

  lemma {:induction false} WatermarkAtMost(listed: set<Event>, a: seq<Event>, b: seq<Event>)
    requires IsPage(listed, a) && IsPage(listed, b)
    ensures HighWatermark(a) <= HighWatermark(b)
  {
    WatermarkIsMaximum(a);
    WatermarkIsMaximum(b);
    if HighWatermark(a) > 0 {
      var e :| e in a && e.time == HighWatermark(a);
      assert e in Elements(a);
    }
  }

  // ---------------------------------------------------------------- runs

  datatype Load = LoadFailed | Nothing | Loaded

  datatype Step =
    /** One iteration: the clock read before it, the instant of its query, the page it returned (none when the fetch
        failed), and whether the cursor could be saved. */
    | Iterate(now: int, at: Instant, answer: Option<seq<Event>>, saveOk: bool)
    /** The poller starts (again) at `start` with the given polling interval. */
    | Restart(start: int, interval: int, load: Load)

  datatype State = State(
    hasStore: bool,             // whether there is a cursor store at all
    since: int,                 // the cursor in memory
    saved: Option<int>,         // the cursor in the store
    clock: int,
    last: Instant,              // the last successful query
    lastColdStart: int,         // when a poller last started without a saved cursor
    seen: set<Event>)           // everything ever fetched by a successful iteration

  /** Before anything ran. */
  ghost function Fresh(hasStore: bool): State { State(hasStore, 0, None, 0, Instant(0, 0), 0, {}) }

  ghost function QueryFrom(s: State): int { ReplayQuerySince(s.since, OVERLAP) }

  /** The clock advances, an answer is a page of the window, and a query from the zero time is refused. */
  ghost predicate Legal(events: set<Event>, s: State, step: Step) {
    match step
    case Iterate(now, at, answer, _) =>
      && s.clock <= now <= at.until <= at.answered
      && (answer.Some? ==> QueryFrom(s) != 0 && IsPage(Window(events, QueryFrom(s), at), answer.value))
    case Restart(start, interval, load) =>
      && s.clock <= start && 0 <= interval < start
      && (load == Loaded ==> s.hasStore && s.saved.Some?)
      && (load == LoadFailed ==> s.hasStore)
      && (load == Nothing ==> s.saved.None?)
  }

  /** What a query can return: the events the provider shows by then that happened after the cursor less ten minutes and
      before the upper bound, both cut to whole seconds and excluded; a zero cursor is not moved. */
  lemma {:induction false} WindowExactly(events: set<Event>, s: State, at: Instant, e: Event)
    ensures e in Window(events, QueryFrom(s), at) <==>
            var from := if s.since == 0 then 0 else s.since - 600_000_000_000;
            && e in events && e.visible <= at.answered
            && e.time < at.until - at.until % 1_000_000_000
            && e.time > from - from % 1_000_000_000
  {
  }

  /** The cursors after an answered query: a failed save keeps both, and without a store only the one in memory moves.
      */
  ghost function CursorsAfter(
    hasStore: bool, since: int, saved: Option<int>, next: int, saveOk: bool): (int, Option<int>) {
    if !hasStore then (next, saved) else if saveOk then (next, Some(next)) else (since, saved)
  }

  ghost function Next(s: State, step: Step): State {
    match step
    case Iterate(now, at, answer, saveOk) =>
      if answer.None? then s.(clock := at.answered)
      else
        var next := NextCursor(HighWatermark(answer.value), s.since, now);
        var (since, saved) := CursorsAfter(s.hasStore, s.since, s.saved, next, saveOk);
        s.(since := since, saved := saved, clock := at.answered, last := at, seen := s.seen + Elements(answer.value))
    case Restart(start, interval, load) =>
      if load == Loaded && s.saved.Some? then s.(since := s.saved.value, clock := start)
      else s.(since := start - interval, clock := start, lastColdStart := start)
  }

  ghost function Run(s: State, steps: seq<Step>): State
    decreases |steps|
  {
    if steps == [] then s else Run(Next(s, steps[0]), steps[1..])
  }

  ghost predicate LegalRun(events: set<Event>, s: State, steps: seq<Step>)
    decreases |steps|
  {
    steps == [] || (Legal(events, s, steps[0]) && LegalRun(events, Next(s, steps[0]), steps[1..]))
  }

  lemma {:induction false} RunSplits(events: set<Event>, s: State, a: seq<Step>, b: seq<Step>)
    ensures Run(s, a + b) == Run(Run(s, a), b)
    ensures LegalRun(events, s, a + b) <==> LegalRun(events, s, a) && LegalRun(events, Run(s, a), b)
    decreases |a|
  {
    if a == [] {
      assert a + b == b;
    } else {
      assert (a + b)[1..] == a[1..] + b && (a + b)[0] == a[0];
      RunSplits(events, Next(s, a[0]), a[1..], b);
    }
  }

  // ---------------------------------------------------------------- what every step keeps

  /** The last moment up to which the cursor may already have moved. */
  ghost function Horizon(s: State): int { if s.last.until > s.lastColdStart then s.last.until else s.lastColdStart }

  /** The events that had shown by an instant and are as new as `e`: a count a caller can take from the event log. */
  ghost function Crowd(events: set<Event>, e: Event, at: Instant): set<Event> {
    set f | f in events && f != e && f.time >= e.time && Ready(f, at)
  }

  /** The event became visible after the last cold start and could have been answered by the last successful query. */
  predicate Due(s: State, e: Event) { s.lastColdStart < e.visible && Ready(e, s.last) }

  ghost predicate ClocksInOrder(s: State) {
    0 <= s.last.until <= s.last.answered <= s.clock && 0 <= s.lastColdStart <= s.clock
  }

  /** What every step keeps: the cursors never pass the horizon, and every due event that fewer than fifty events crowd
      has been fetched. */
  ghost predicate Inv(events: set<Event>, s: State) {
    && ClocksInOrder(s)
    && s.since <= Horizon(s)
    && (s.saved.Some? ==> s.saved.value <= Horizon(s))
    && (forall e :: e in events && Due(s, e) && |Crowd(events, e, s.last)| < 50 ==> e in s.seen)
  }

  lemma {:induction false} CrowdIsInWindow(events: set<Event>, e: Event, from: int, at: Instant)
    requires e in Window(events, from, at)
    ensures AsNew(Window(events, from, at), e) == Crowd(events, e, at)
  {
  }

  lemma {:induction false} CrowdGrows(events: set<Event>, e: Event, a: Instant, b: Instant)
    requires a.until <= b.until && a.answered <= b.answered
    ensures |Crowd(events, e, a)| <= |Crowd(events, e, b)|
    ensures Ready(e, a) ==> Ready(e, b)
  {
    SubsetSize(Crowd(events, e, a), Crowd(events, e, b));
  }

  lemma {:induction false} CursorStaysBelowQuery(events: set<Event>, s: State, step: Step)
    requires Inv(events, s) && Legal(events, s, step) && step.Iterate? && step.answer.Some?
    ensures NextCursor(HighWatermark(step.answer.value), s.since, step.now) <= step.at.until
  {
    var page := step.answer.value;
    WatermarkIsMaximum(page);
    forall e | e in page ensures e.time < step.at.until { assert e in Elements(page); }
  }

  lemma {:induction false} AnswerKeepsFetched(events: set<Event>, s: State, step: Step, e: Event)
    requires Timely(events) && Inv(events, s) && Legal(events, s, step) && step.Iterate? && step.answer.Some?
    requires e in events && Due(Next(s, step), e) && |Crowd(events, e, step.at)| < 50
    ensures e in Next(s, step).seen
  {
    if Ready(e, s.last) {
      CrowdGrows(events, e, s.last, step.at);
    } else {
      var window := Window(events, QueryFrom(s), step.at);
      CrowdIsInWindow(events, e, QueryFrom(s), step.at);
      FewRivalsIsOnPage(window, step.answer.value, e);
    }
  }

  lemma {:induction false} StepKeepsInv(events: set<Event>, s: State, step: Step)
    requires Timely(events) && Inv(events, s) && Legal(events, s, step)
    ensures Inv(events, Next(s, step))
    ensures s.seen <= Next(s, step).seen
  {
    var t := Next(s, step);
    if step.Iterate? && step.answer.Some? {
      CursorStaysBelowQuery(events, s, step);
      forall e | e in events && Due(t, e) && |Crowd(events, e, t.last)| < 50 ensures e in t.seen {
        AnswerKeepsFetched(events, s, step, e);
      }
    }
  }

  lemma {:induction false} RunKeepsInv(events: set<Event>, s: State, steps: seq<Step>)
    requires Timely(events) && Inv(events, s) && LegalRun(events, s, steps)
    ensures Inv(events, Run(s, steps))
    ensures s.seen <= Run(s, steps).seen
    decreases |steps|
  {
    if steps != [] {
      StepKeepsInv(events, s, steps[0]);
      RunKeepsInv(events, Next(s, steps[0]), steps[1..]);
    }
  }

  // ---------------------------------------------------------------- which events are fetched

  /**
   No event is missed as long as fewer than fifty crowd it: if at some point of a run every cold start so far came
   before the event was visible, some answered query could name it, and by that query fewer than fifty other events
   as new had shown, then the event has been fetched, and stays fetched.  Failed fetches, failed saves and restarts
   from the saved cursor in between do not matter, nor how ties are broken.
   */
  lemma {:induction false} NoMissedEvents(
    events: set<Event>, hasStore: bool, steps: seq<Step>, later: seq<Step>, e: Event)
    requires Timely(events) && e in events && LegalRun(events, Fresh(hasStore), steps + later)
    requires var s := Run(Fresh(hasStore), steps); Due(s, e) && |Crowd(events, e, s.last)| < 50
    ensures e in Run(Fresh(hasStore), steps + later).seen
  {
    RunSplits(events, Fresh(hasStore), steps, later);
    RunKeepsInv(events, Fresh(hasStore), steps);
    RunKeepsInv(events, Run(Fresh(hasStore), steps), later);
  }

  /** The first answered query that could name an event has it in its window, and returns it for certain if and only if
      fewer than fifty events as new had shown. */
  lemma {:induction false} FirstReadyQuery(
    events: set<Event>, hasStore: bool, steps: seq<Step>, e: Event, at: Instant)
    requires Timely(events) && e in events && LegalRun(events, Fresh(hasStore), steps)
    requires var s := Run(Fresh(hasStore), steps); s.lastColdStart < e.visible && !Ready(e, s.last)
    requires Ready(e, at)
    ensures var window := Window(events, QueryFrom(Run(Fresh(hasStore), steps)), at);
            && e in window
            && ((forall page :: IsPage(window, page) ==> e in page) <==> |Crowd(events, e, at)| < 50)
  {
    var s := Run(Fresh(hasStore), steps);
    RunKeepsInv(events, Fresh(hasStore), steps);
    CrowdIsInWindow(events, e, QueryFrom(s), at);
    FetchedExactly(Window(events, QueryFrom(s), at), e);
  }

  /** The events strictly newer than `e` that had shown by an instant. */
  ghost function Ahead(events: set<Event>, e: Event, at: Instant): set<Event> {
    set f | f in events && f.time > e.time && Ready(f, at)
  }

  lemma {:induction false} AheadBlocks(events: set<Event>, e: Event, from: int, at: Instant, page: seq<Event>)
    requires IsPage(Window(events, from, at), page) && |Ahead(events, e, at)| >= 50
    ensures e !in page
  {
    var window := Window(events, from, at);
    if e in window {
      assert Newer(window, e) == Ahead(events, e, at);
      ManyNewerIsOffPage(window, page, e);
    } else {
      assert e !in Elements(page);
    }
  }

  lemma {:induction false} AheadGrows(events: set<Event>, e: Event, a: Instant, b: Instant)
    requires a.until <= b.until && a.answered <= b.answered
    ensures |Ahead(events, e, a)| <= |Ahead(events, e, b)|
  {
    SubsetSize(Ahead(events, e, a), Ahead(events, e, b));
  }

  /** Once fifty newer events have shown, an event that was not fetched never is: not by an overlapping query, not
      after a restart, whatever the cursor. */
  lemma {:induction false} LostForGood(events: set<Event>, s: State, steps: seq<Step>, e: Event)
    requires ClocksInOrder(s) && LegalRun(events, s, steps)
    requires e !in s.seen && |Ahead(events, e, s.last)| >= 50
    ensures e !in Run(s, steps).seen
    decreases |steps|
  {
    if steps != [] {
      var step := steps[0];
      var t := Next(s, step);
      if step.Iterate? && step.answer.Some? {
        AheadGrows(events, e, s.last, step.at);
        AheadBlocks(events, e, QueryFrom(s), step.at, step.answer.value);
        assert e !in Elements(step.answer.value);
      }
      LostForGood(events, t, steps[1..], e);
    }
  }

  /**
   The fate of a timely event that shares its time with no other, over whole runs: once an answered query could name
   it, it has been fetched, in every continuation, if and only if fewer than fifty newer events had shown at that
   first query.
   */
  lemma {:induction false} FateIsSealed(
    events: set<Event>, hasStore: bool, steps: seq<Step>, query: Step, later: seq<Step>, e: Event)
    requires Timely(events) && e in events && LegalRun(events, Fresh(hasStore), steps + [query] + later)
    requires forall f :: f in events && f.time == e.time ==> f == e
    requires query.Iterate? && query.answer.Some? && Ready(e, query.at)
    requires var s := Run(Fresh(hasStore), steps); s.lastColdStart < e.visible && !Ready(e, s.last)
    ensures e in Run(Fresh(hasStore), steps + [query] + later).seen <==> |Ahead(events, e, query.at)| < 50
  {
    var begin := Fresh(hasStore);
    var s := Run(begin, steps);
    var t := Next(s, query);
    SplitAtQuery(events, begin, steps, query, later);
    SeenIsReady(events, begin, steps, e);
    RunKeepsInv(events, begin, steps);
    StepKeepsInv(events, s, query);
    assert Ahead(events, e, query.at) == Crowd(events, e, query.at);
    if |Ahead(events, e, query.at)| < 50 {
      assert Due(t, e);
      RunKeepsInv(events, t, later);
    } else {
      AheadBlocks(events, e, QueryFrom(s), query.at, query.answer.value);
      assert e !in Elements(query.answer.value);
      LostForGood(events, t, later, e);
    }
  }

  lemma {:induction false} SplitAtQuery(events: set<Event>, s: State, steps: seq<Step>, query: Step, later: seq<Step>)
    requires LegalRun(events, s, steps + [query] + later)
    ensures LegalRun(events, s, steps) && Legal(events, Run(s, steps), query)
    ensures LegalRun(events, Next(Run(s, steps), query), later)
    ensures Run(s, steps + [query] + later) == Run(Next(Run(s, steps), query), later)
  {
    assert steps + [query] + later == steps + ([query] + later);
    RunSplits(events, s, steps, [query] + later);
    assert ([query] + later)[0] == query && ([query] + later)[1..] == later;
  }

  /** An event is fetched only by an answered query that could name it. */
  lemma {:induction false} SeenIsReady(events: set<Event>, s: State, steps: seq<Step>, e: Event)
    requires ClocksInOrder(s) && LegalRun(events, s, steps) && (e in s.seen ==> Ready(e, s.last))
    ensures e in Run(s, steps).seen ==> Ready(e, Run(s, steps).last)
    decreases |steps|
  {
    if steps != [] {
      StepSeesReady(events, s, steps[0], e);
      SeenIsReady(events, Next(s, steps[0]), steps[1..], e);
    }
  }

  lemma {:induction false} StepSeesReady(events: set<Event>, s: State, step: Step, e: Event)
    requires ClocksInOrder(s) && Legal(events, s, step) && (e in s.seen ==> Ready(e, s.last))
    ensures ClocksInOrder(Next(s, step)) && (e in Next(s, step).seen ==> Ready(e, Next(s, step).last))
  {
    if step.Iterate? && step.answer.Some? {
      assert e in step.answer.value ==> e in Elements(step.answer.value);
      CrowdGrows({}, e, s.last, step.at);
    }
  }

  // ---------------------------------------------------------------- fifty-one events

  /** Event number `k` of a burst, one a second. */
  function BurstEvent(k: nat): Event { Event(k, (1000 + k) * SECOND, (1000 + k) * SECOND) }

  ghost function Burst(n: nat): set<Event> { set k: nat | k < n :: BurstEvent(k) }

  lemma {:induction false} BurstSize(n: nat)
    ensures |Burst(n)| == n
  {
    if n > 0 {
      BurstSize(n - 1);
      assert Burst(n) == Burst(n - 1) + {BurstEvent(n - 1)};
    }
  }

  lemma {:induction false} BurstIsAhead(n: nat, at: Instant)
    requires n > 0 && Seconds(at.until) > (1000 + n) * SECOND && at.until <= at.answered
    ensures Ahead(Burst(n), BurstEvent(0), at) == Burst(n) - {BurstEvent(0)}
    ensures |Ahead(Burst(n), BurstEvent(0), at)| == n - 1
  {
    BurstSize(n);
    var first := BurstEvent(0);
    assert first in Burst(n);
    forall f | f in Burst(n) - {first} ensures f in Ahead(Burst(n), first, at) {
      var k: nat :| k < n && f == BurstEvent(k);
    }
  }

  /** A poller that starts, and one query that is answered: a burst of 51 timely events loses its first for good. */
  lemma {:induction false} BurstLosesAnEvent() returns (steps: seq<Step>)
    ensures Timely(Burst(51)) && LegalRun(Burst(51), Fresh(true), steps)
    ensures var s := Run(Fresh(true), steps); s.lastColdStart < BurstEvent(0).visible && Due(s, BurstEvent(0))
    ensures forall later :: LegalRun(Burst(51), Fresh(true), steps + later) ==>
              BurstEvent(0) !in Run(Fresh(true), steps + later).seen
  {
    var events, e, begin := Burst(51), BurstEvent(0), Fresh(true);
    var restart := Restart(999 * SECOND, 60 * SECOND, Nothing);
    var s1 := Next(begin, restart);
    var at := Instant(1100 * SECOND, 1100 * SECOND);
    var window := Window(events, QueryFrom(s1), at);
    var page := TopExists(window, PageSize(window));
    var query := Iterate(1100 * SECOND, at, Some(page), true);
    steps := [restart, query];
    var s2 := Next(s1, query);
    TwoSteps(events, begin, restart, query);
    BurstIsAhead(51, at);
    AheadBlocks(events, e, QueryFrom(s1), at, page);
    assert e !in Elements(page);
    forall later | LegalRun(events, begin, steps + later) ensures e !in Run(begin, steps + later).seen {
      RunSplits(events, begin, steps, later);
      LostForGood(events, s2, later, e);
    }
  }

  /** One event fewer, and none is lost: whatever page answers the same query holds all fifty. */
  lemma {:induction false} FiftyLoseNothing(page: seq<Event>, later: seq<Step>) returns (steps: seq<Step>)
    requires var s := Next(Fresh(true), Restart(999 * SECOND, 60 * SECOND, Nothing));
             IsPage(Window(Burst(50), QueryFrom(s), Instant(1100 * SECOND, 1100 * SECOND)), page)
    ensures Timely(Burst(50)) && |Burst(50)| == 50 && LegalRun(Burst(50), Fresh(true), steps)
    ensures LegalRun(Burst(50), Fresh(true), steps + later) ==>
              Burst(50) <= Run(Fresh(true), steps + later).seen
  {
    var events, begin := Burst(50), Fresh(true);
    var restart := Restart(999 * SECOND, 60 * SECOND, Nothing);
    var s1 := Next(begin, restart);
    var at := Instant(1100 * SECOND, 1100 * SECOND);
    var query := Iterate(1100 * SECOND, at, Some(page), true);
    steps := [restart, query];
    TwoSteps(events, begin, restart, query);
    BurstSize(50);
    BurstIsOnPage(50, QueryFrom(s1), at, page);
    if LegalRun(events, begin, steps + later) {
      RunSplits(events, begin, steps, later);
      RunKeepsInv(events, begin, steps);
      RunKeepsInv(events, Run(begin, steps), later);
    }
  }

  lemma {:induction false} BurstIsOnPage(n: nat, from: int, at: Instant, page: seq<Event>)
    requires n <= 50 && from < 1000 * SECOND && Seconds(at.until) > (1000 + n) * SECOND && at.until <= at.answered
    requires IsPage(Window(Burst(n), from, at), page) && from % SECOND == 0
    ensures Burst(n) <= Elements(page)
  {
    var window := Window(Burst(n), from, at);
    BurstSize(n);
    forall e | e in Burst(n) ensures e in page {
      var k: nat :| k < n && e == BurstEvent(k);
      assert e in window;
      SubsetSize(AsNew(window, e), Burst(n) - {e});
      FewRivalsIsOnPage(window, page, e);
    }
  }

  lemma {:induction false} TwoSteps(events: set<Event>, s: State, a: Step, b: Step)
    ensures Run(s, [a, b]) == Next(Next(s, a), b)
    ensures LegalRun(events, s, [a, b]) <==> Legal(events, s, a) && Legal(events, Next(s, a), b)
  {
    assert [a, b][1..] == [b] && [b][1..] == [];
    assert Run(Next(s, a), [b]) == Run(Next(Next(s, a), b), []);
    assert LegalRun(events, Next(Next(s, a), b), []);
    assert LegalRun(events, Next(s, a), [b]) <==> Legal(events, Next(s, a), b);
  }

  // ---------------------------------------------------------------- cold starts

  /** What a cold start can lose, exactly: the first query after it returns an event that was already visible, however
      ties are broken, if and only if the filter can name it, it is newer than the polling interval plus the overlap,
      cut to whole seconds, and fewer than fifty events crowd it. */
  lemma {:induction false} ColdStartWindow(
    events: set<Event>, s: State, start: int, interval: int, load: Load, e: Event, at: Instant)
    requires Legal(events, s, Restart(start, interval, load)) && load != Loaded
    requires e in events && e.visible <= start <= at.until <= at.answered
    ensures var window := Window(events, QueryFrom(Next(s, Restart(start, interval, load))), at);
            (forall page :: IsPage(window, page) ==> e in page) <==>
            var oldest := start - interval - 600_000_000_000;
            && e.time < at.until - at.until % 1_000_000_000
            && e.time > oldest - oldest % 1_000_000_000
            && |Crowd(events, e, at)| < 50
  {
    var from := start - interval - OVERLAP;
    var window := Window(events, from, at);
    FetchedExactly(window, e);
    if e in window { CrowdIsInWindow(events, e, from, at); }
  }

  // ---------------------------------------------------------------- the cursor

  /** Once something was saved, memory and store agree; before that, memory holds a cold-start cursor. */
  ghost predicate CursorInv(s: State, interval: int) {
    s.hasStore &&
    match s.saved
    case Some(saved) => s.since == saved
    case None => s.since == 0 || s.since <= s.clock - interval
  }

  ghost predicate CursorGrows(s: State, t: State) {
    && s.since <= t.since
    && (s.saved.Some? ==> t.saved.Some? && s.saved.value <= t.saved.value)
  }

  /** The store is readable (it yields the saved cursor, if there is one) and the polling interval is fixed. */
  predicate CleanStep(step: Step, interval: int) {
    step.Restart? ==> step.load != LoadFailed && step.interval == interval
  }

  /** With a readable store neither the cursor in memory nor the saved one ever moves back, across failed fetches,
      failed saves and restarts. */
  lemma {:induction false} CursorNeverDecreases(events: set<Event>, s: State, steps: seq<Step>, interval: int)
    requires CursorInv(s, interval) && LegalRun(events, s, steps)
    requires forall i :: 0 <= i < |steps| ==> CleanStep(steps[i], interval)
    ensures CursorInv(Run(s, steps), interval) && CursorGrows(s, Run(s, steps))
    decreases |steps|
  {
    if steps != [] {
      assert CleanStep(steps[0], interval);
      var t := Next(s, steps[0]);
      assert CursorInv(t, interval) && CursorGrows(s, t);
      CursorNeverDecreases(events, t, steps[1..], interval);
    }
  }

  /** After a failed load the next save moves the saved cursor back if and only if the newest event of the window is
      newer than the cold-start cursor and older than what was saved. */
  lemma {:induction false} FailedLoadMovesBackExactly(
    events: set<Event>, hasStore: bool, steps: seq<Step>, restart: Step, query: Step)
    requires Timely(events) && LegalRun(events, Fresh(hasStore), steps)
    requires restart.Restart? && restart.load == LoadFailed && query.Iterate? && query.answer.Some? && query.saveOk
    requires var s := Run(Fresh(hasStore), steps);
             s.saved.Some? && Legal(events, s, restart) && Legal(events, Next(s, restart), query)
    ensures var s := Run(Fresh(hasStore), steps);
            var t := Next(Next(s, restart), query);
            && t.saved.Some?
            && (t.saved.value < s.saved.value <==>
                restart.start - restart.interval < HighWatermark(query.answer.value) < s.saved.value)
  {
    RunKeepsInv(events, Fresh(hasStore), steps);
  }

  lemma {:induction false} OnlyEvent(e: Event, from: int, at: Instant)
    requires Listed(e, from, at) && e.time > 0
    ensures IsPage(Window({e}, from, at), [e]) && HighWatermark([e]) == e.time
  {
    assert Window({e}, from, at) == {e};
    assert [e][..0] == [];
  }

  /** The single event of the run below, and the instants of its queries. */
  const EVENT := Event(0, 1000 * MINUTE, 1000 * MINUTE)

  function Poll(minute: int): Step
  {
    Iterate(minute * MINUTE, Instant(minute * MINUTE, minute * MINUTE), Some([EVENT]), true)
  }

  lemma {:induction false} PollOnce(s: State, minute: int)
    requires s.hasStore && s.clock <= minute * MINUTE && minute > 1000 && 10 * MINUTE < s.since < 1010 * MINUTE
    ensures Legal({EVENT}, s, Poll(minute))
    ensures Next(s, Poll(minute)).saved == Some(NextCursor(1000 * MINUTE, s.since, minute * MINUTE))
    ensures Next(s, Poll(minute)).since == NextCursor(1000 * MINUTE, s.since, minute * MINUTE)
    ensures Next(s, Poll(minute)).clock == minute * MINUTE && Next(s, Poll(minute)).hasStore
  {
    OnlyEvent(EVENT, QueryFrom(s), Poll(minute).at);
  }

  /** A run of that kind: started, polled twice, and then restarted with an unreadable store. */
  lemma {:induction false} FailedLoadCanMoveCursorBack() returns (steps: seq<Step>, later: seq<Step>)
    ensures Timely({EVENT}) && LegalRun({EVENT}, Fresh(true), steps + later)
    ensures Run(Fresh(true), steps).saved.Some? && Run(Fresh(true), steps + later).saved.Some?
    ensures Run(Fresh(true), steps + later).saved.value < Run(Fresh(true), steps).saved.value
  {
    var begin := Fresh(true);
    var start, again := Restart(1005 * MINUTE, 10 * MINUTE, Nothing), Restart(1030 * MINUTE, 60 * MINUTE, LoadFailed);
    var s1 := Next(begin, start);
    PollOnce(s1, 1005);
    var s2 := Next(s1, Poll(1005));
    PollOnce(s2, 1030);
    var s3 := Next(s2, Poll(1030));
    var s4 := Next(s3, again);
    PollOnce(s4, 1030);
    steps, later := [start, Poll(1005)] + [Poll(1030)], [again, Poll(1030)];
    TwoSteps({EVENT}, begin, start, Poll(1005));
    RunSplits({EVENT}, begin, [start, Poll(1005)], [Poll(1030)]);
    TwoSteps({EVENT}, s3, again, Poll(1030));
    RunSplits({EVENT}, begin, steps, later);
  }

  // ---------------------------------------------------------------- the poller

  class Poller {
    const hasStore: bool
    var since: int
    var saved: Option<int>

    constructor (hasStore: bool, saved: Option<int>)
      ensures this.hasStore == hasStore && this.saved == saved && since == 0
    {
      this.hasStore, this.saved := hasStore, saved;
      since := 0;
    }

    /** `loadWAFReplayCursor`. */
    method LoadCursor(now: int, interval: int, load: Load)
      requires load == Loaded ==> saved.Some?
      modifies this`since
      ensures since == if hasStore && load == Loaded then saved.value else now - interval
    {
      since := now - interval;
      if !hasStore { return; }
      match load
      case LoadFailed => return;
      case Nothing => return;
      case Loaded => since := saved.value;
    }

    /** `runWAFReplayIteration` on what its query returned; it does to the two cursors what `Next` says. */
    method RunIteration(now: int, at: Instant, answer: Option<seq<Event>>, saveOk: bool)
      modifies this
      ensures forall s: State :: s.hasStore == hasStore && s.since == old(since) && s.saved == old(saved) ==>
                var t := Next(s, Iterate(now, at, answer, saveOk));
                since == t.since && saved == t.saved
      ensures answer.None? || (hasStore && !saveOk) ==> since == old(since) && saved == old(saved)
      ensures answer.Some? && (hasStore ==> saveOk) && old(since) >= 0 ==>
                && saved == (if hasStore then Some(since) else old(saved))
                && ((forall e :: e in answer.value ==> e.time <= old(since)) ==>
                    since == if now > old(since) then now else old(since))
                && ((exists e :: e in answer.value && e.time > old(since)) ==>
                    && (forall e :: e in answer.value ==> e.time <= since)
                    && (exists e :: e in answer.value && e.time == since))
    {
      if answer.None? { return; }
      var hw := ScanHighWatermark(answer.value);
      WatermarkIsMaximum(answer.value);
      var next := NextCursor(hw, since, now);
      if hasStore {
        if !saveOk { return; }
        saved := Some(next);
      }
      since := next;
    }
  }
}
