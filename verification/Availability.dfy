/**
  app/availability/calculator.py: the free intervals of a planning window, from weekly
  working hours and busy time.
 */
module Availability {
  import opened Prelude
  import opened Sorting
  import opened Intervals
  import opened Zones

  /** A wall-clock window of a day; its constructor refuses a start that is not before the end. */
  type WallClockWindow = s: Span | s.start < s.end witness Span(0, 1)

  type WorkingHours = map<int, seq<WallClockWindow>>

  datatype Error = IncompleteWorkingHours | UnresolvableLocalTime

  function Weekday(date: int): int {
    date % 7
  }

  predicate AllWeekdays(hours: WorkingHours) {
    hours.Keys == {0, 1, 2, 3, 4, 5, 6}
  }

  // ----- wall clock to instant -----

  /** The instants at which the zone's clock reads `naive`, among the two readings tried; earliest first. */
  function ValidLocal(zone: Zone, naive: int): seq<int> {
    var first, second := zone.resolve(naive, 0), zone.resolve(naive, 1);
    var firstValid, secondValid := Local(zone, first) == naive, Local(zone, second) == naive;
    if firstValid && secondValid && first != second then [Min(first, second), Max(first, second)]
    else if firstValid then [first]
    else if secondValid then [second]
    else []
  }

  /** The first reading from `reading` up to `last`, a minute at a time, that exists. */
  function ResolveFrom(zone: Zone, reading: int, last: int, isEnd: bool): Result<int, Error>
    decreases last - reading + MINUTE
  {
    if reading > last then Err(UnresolvableLocalTime)
    else
      var candidates := ValidLocal(zone, reading);
      if candidates != [] then Ok(candidates[if isEnd then |candidates| - 1 else 0])
      else ResolveFrom(zone, reading + MINUTE, last, isEnd)
  }

  /** The wall clock tried, or the first later minute, within three hours, that exists. */
  function Resolve(zone: Zone, date: int, wall: int, isEnd: bool): Result<int, Error> {
    var naive := date * DAY + wall;
    ResolveFrom(zone, naive, naive + 180 * MINUTE, isEnd)
  }

  method ValidLocalCandidates(zone: Zone, naive: int) returns (candidates: seq<int>)
    ensures candidates == ValidLocal(zone, naive)
  {
    var byInstant: set<int> := {};
    candidates := [];
    for fold := 0 to 2
      invariant fold == 0 ==> candidates == []
      invariant fold == 1 ==>
        candidates == (if Local(zone, zone.resolve(naive, 0)) == naive then [zone.resolve(naive, 0)] else [])
      invariant fold == 2 ==> candidates == ValidLocal(zone, naive)
    {
      var instant := zone.resolve(naive, fold);
      if Local(zone, instant) == naive && instant !in candidates {
        // the dictionary keyed by instant, kept in key order
        candidates := if candidates == [] || candidates[0] < instant
                      then candidates + [instant] else [instant] + candidates;
      }
    }
  }

  method ResolveLocal(zone: Zone, date: int, wall: int, isEnd: bool) returns (r: Result<int, Error>)
    ensures r == Resolve(zone, date, wall, isEnd)
  {
    var naive := date * DAY + wall;
    for k := 0 to 181
      invariant Resolve(zone, date, wall, isEnd) ==
                ResolveFrom(zone, naive + k * MINUTE, naive + 180 * MINUTE, isEnd)
    {
      var candidates := ValidLocalCandidates(zone, naive + k * MINUTE);
      if candidates != [] {
        return Ok(candidates[if isEnd then |candidates| - 1 else 0]);
      }
    }
    return Err(UnresolvableLocalTime);
  }

  // ----- working time -----

  predicate Resolvable(zone: Zone, date: int, window: WallClockWindow) {
    Resolve(zone, date, window.start, false).Ok? && Resolve(zone, date, window.end, true).Ok?
  }

  /** The instant is in the window of that date, as resolved. */
  predicate InResolved(zone: Zone, date: int, window: WallClockWindow, t: int) {
    && Resolvable(zone, date, window)
    && Resolve(zone, date, window.start, false).value <= t < Resolve(zone, date, window.end, true).value
  }

  ghost predicate WindowIndex(hours: WorkingHours, date: int, k: int)
    requires AllWeekdays(hours)
  {
    0 <= k < |hours[Weekday(date)]|
  }

  /** The instant is in a resolved working window of one of the planning window's dates before (date, k). */
  ghost predicate WorkedBefore(
    zone: Zone, hours: WorkingHours, planning: TimeInterval, date: int, k: int, t: int)
    requires AllWeekdays(hours)
  {
    exists d, j | WindowIndex(hours, d, j) ::
      && LocalDay(zone, planning.start) <= d
      && (d < date || (d == date && j < k))
      && InResolved(zone, d, hours[Weekday(d)][j], t)
  }

  /** The instant is in a resolved working window of a date the planning window touches. */
  ghost predicate Working(zone: Zone, hours: WorkingHours, planning: TimeInterval, t: int)
    requires AllWeekdays(hours)
  {
    WorkedBefore(zone, hours, planning, LocalDay(zone, planning.end) + 1, 0, t)
  }

  /** Every window of every date the planning window touches can be resolved. */
  ghost predicate AllResolvable(zone: Zone, hours: WorkingHours, planning: TimeInterval)
    requires AllWeekdays(hours)
  {
    forall d, j | WindowIndex(hours, d, j) ::
      LocalDay(zone, planning.start) <= d <= LocalDay(zone, planning.end) ==>
        Resolvable(zone, d, hours[Weekday(d)][j])
  }

  /** Adding one window extends the worked time by the window's resolved instants. */
  lemma WorkedNext(zone: Zone, hours: WorkingHours, planning: TimeInterval, date: int, k: int, t: int)
    requires AllWeekdays(hours) && WindowIndex(hours, date, k)
    requires LocalDay(zone, planning.start) <= date
    ensures WorkedBefore(zone, hours, planning, date, k + 1, t) <==>
            WorkedBefore(zone, hours, planning, date, k, t)
            || InResolved(zone, date, hours[Weekday(date)][k], t)
  {
    if InResolved(zone, date, hours[Weekday(date)][k], t) {
      assert WindowIndex(hours, date, k);
    }
  }

  /** After a date's last window the next date starts. */
  lemma WorkedNextDate(zone: Zone, hours: WorkingHours, planning: TimeInterval, date: int, t: int)
    requires AllWeekdays(hours)
    ensures WorkedBefore(zone, hours, planning, date, |hours[Weekday(date)]|, t) <==>
            WorkedBefore(zone, hours, planning, date + 1, 0, t)
  {
  }

  /** The list stands for the worked time before (date, k), clipped to the planning window. */
  ghost predicate WorkedList(
    intervals: seq<TimeInterval>, zone: Zone, hours: WorkingHours, planning: TimeInterval, date: int, k: int)
    requires AllWeekdays(hours)
  {
    forall t :: Covers(intervals, t) <==> Holds(planning, t) && WorkedBefore(zone, hours, planning, date, k, t)
  }

  lemma AddWindow(
    intervals: seq<TimeInterval>, zone: Zone, hours: WorkingHours, planning: TimeInterval, date: int, k: int,
    start: int, end: int)
    requires AllWeekdays(hours) && WindowIndex(hours, date, k)
    requires LocalDay(zone, planning.start) <= date
    requires WorkedList(intervals, zone, hours, planning, date, k)
    requires Resolve(zone, date, hours[Weekday(date)][k].start, false) == Ok(start)
    requires Resolve(zone, date, hours[Weekday(date)][k].end, true) == Ok(end)
    ensures var s, e := Max(start, planning.start), Min(end, planning.end);
      WorkedList(if s < e then intervals + [Span(s, e)] else intervals, zone, hours, planning, date, k + 1)
  {
    var s, e := Max(start, planning.start), Min(end, planning.end);
    var extended := if s < e then intervals + [Span(s, e)] else intervals;
    forall t ensures Covers(extended, t) <==>
                     Holds(planning, t) && WorkedBefore(zone, hours, planning, date, k + 1, t)
    {
      WorkedNext(zone, hours, planning, date, k, t);
      if s < e {
        CoversAppend(intervals, Span(s, e), t);
      }
    }
  }

  lemma WorkedListNextDate(
    intervals: seq<TimeInterval>, zone: Zone, hours: WorkingHours, planning: TimeInterval, date: int)
    requires AllWeekdays(hours)
    requires WorkedList(intervals, zone, hours, planning, date, |hours[Weekday(date)]|)
    ensures WorkedList(intervals, zone, hours, planning, date + 1, 0)
  {
    forall t ensures Covers(intervals, t) <==>
                     Holds(planning, t) && WorkedBefore(zone, hours, planning, date + 1, 0, t)
    {
      WorkedNextDate(zone, hours, planning, date, t);
    }
  }

  lemma NothingWorked(zone: Zone, hours: WorkingHours, planning: TimeInterval)
    requires AllWeekdays(hours)
    ensures WorkedList([], zone, hours, planning, LocalDay(zone, planning.start), 0)
  {
  }

  method WorkingIntervals(planning: TimeInterval, hours: WorkingHours, zone: Zone)
    returns (r: Result<seq<TimeInterval>, Error>)
    requires AllWeekdays(hours)
    ensures r.Ok? <==> AllResolvable(zone, hours, planning)
    ensures r.Ok? ==> Canonical(r.value)
    ensures r.Ok? ==> forall t :: Covers(r.value, t) <==> Holds(planning, t) && Working(zone, hours, planning, t)
  {
    hide Resolve, InResolved, Covers, Canonical, LocalDay;
    var firstDate, lastDate := LocalDay(zone, planning.start), LocalDay(zone, planning.end);
    var intervals: seq<TimeInterval> := [];
    var currentDate := firstDate;
    NothingWorked(zone, hours, planning);
    while currentDate <= lastDate
      invariant firstDate <= currentDate
      invariant if firstDate <= lastDate then currentDate <= lastDate + 1 else currentDate == firstDate
      invariant forall d, j | WindowIndex(hours, d, j) ::
        firstDate <= d < currentDate ==> Resolvable(zone, d, hours[Weekday(d)][j])
      invariant WorkedList(intervals, zone, hours, planning, currentDate, 0)
    {
      var windows := hours[Weekday(currentDate)];
      for k := 0 to |windows|
        invariant forall j | WindowIndex(hours, currentDate, j) ::
          j < k ==> Resolvable(zone, currentDate, windows[j])
        invariant WorkedList(intervals, zone, hours, planning, currentDate, k)
      {
        assert WindowIndex(hours, currentDate, k);
        var localStart := ResolveLocal(zone, currentDate, windows[k].start, false);
        if localStart.Err? { return Err(localStart.error); }
        var localEnd := ResolveLocal(zone, currentDate, windows[k].end, true);
        if localEnd.Err? { return Err(localEnd.error); }
        AddWindow(intervals, zone, hours, planning, currentDate, k, localStart.value, localEnd.value);
        var clippedStart := Max(localStart.value, planning.start);
        var clippedEnd := Min(localEnd.value, planning.end);
        if clippedStart < clippedEnd {
          intervals := intervals + [Span(clippedStart, clippedEnd)];
        }
      }
      WorkedListNextDate(intervals, zone, hours, planning, currentDate);
      currentDate := currentDate + 1;
    }
    var merged := MergeIntervals(intervals);
    return Ok(merged);
  }

  // ----- merging -----

  lemma CoversAppend(s: seq<TimeInterval>, x: TimeInterval, t: int)
    ensures Covers(s + [x], t) <==> Covers(s, t) || Holds(x, t)
  {
    CoversConcat(s, [x], t);
    assert Covers([x], t) <==> Holds(x, t) by {
      assert [x][0] == x;
    }
  }

  /** Appending a later interval, or stretching the last one over it, keeps the list canonical. */
  lemma MergeStep(merged: seq<TimeInterval>, done: seq<TimeInterval>, x: TimeInterval)
    requires IsUnion(merged, done)
    requires merged != [] ==> merged[|merged| - 1].start <= x.start
    ensures merged == [] || merged[|merged| - 1].end < x.start ==> IsUnion(merged + [x], done + [x])
    ensures merged != [] && x.start <= merged[|merged| - 1].end ==>
      var last := merged[|merged| - 1];
      IsUnion(merged[|merged| - 1 := Span(last.start, Max(last.end, x.end))], done + [x])
  {
    if merged == [] || merged[|merged| - 1].end < x.start {
      forall t ensures Covers(merged + [x], t) <==> Covers(done + [x], t) {
        CoversAppend(merged, x, t);
        CoversAppend(done, x, t);
      }
    } else {
      var n := |merged| - 1;
      var last := merged[n];
      var wider: TimeInterval := Span(last.start, Max(last.end, x.end));
      assert merged == merged[..n] + [last];
      assert merged[n := wider] == merged[..n] + [wider];
      forall t ensures Covers(merged[n := wider], t) <==> Covers(done + [x], t) {
        CoversAppend(merged[..n], last, t);
        CoversAppend(merged[..n], wider, t);
        CoversAppend(done, x, t);
        assert Holds(wider, t) <==> Holds(last, t) || Holds(x, t);
      }
    }
  }

  method MergeIntervals(intervals: seq<TimeInterval>) returns (merged: seq<TimeInterval>)
    ensures IsUnion(merged, intervals)
  {
    var ordered := Sort(intervals, SpanLe);
    SpanOrder();
    SortIsSorted(intervals, SpanLe);
    merged := [];
    for i := 0 to |ordered|
      invariant IsUnion(merged, ordered[..i])
      invariant merged != [] ==> i > 0 && merged[|merged| - 1].start <= ordered[i - 1].start
    {
      var interval := ordered[i];
      assert i > 0 ==> SpanLe(ordered[i - 1], ordered[i]);
      MergeStep(merged, ordered[..i], interval);
      assert ordered[..i + 1] == ordered[..i] + [interval];
      if merged == [] || merged[|merged| - 1].end < interval.start {
        merged := merged + [interval];
      } else {
        var previous := merged[|merged| - 1];
        merged := merged[|merged| - 1 := Span(previous.start, Max(previous.end, interval.end))];
      }
    }
    assert ordered[..|ordered|] == ordered;
    CoversPermutation(ordered, intervals);
  }

  method NormalizeBusyIntervals(busyIntervals: seq<TimeInterval>, planning: TimeInterval)
    returns (merged: seq<TimeInterval>)
    ensures Canonical(merged)
    ensures forall t :: Covers(merged, t) <==> Covers(busyIntervals, t) && Holds(planning, t)
  {
    var clipped: seq<TimeInterval> := [];
    for i := 0 to |busyIntervals|
      invariant forall t :: Covers(clipped, t) <==> Covers(busyIntervals[..i], t) && Holds(planning, t)
    {
      ghost var before := clipped;
      var start := Max(busyIntervals[i].start, planning.start);
      var end := Min(busyIntervals[i].end, planning.end);
      if start < end {
        clipped := clipped + [Span(start, end)];
      }
      assert busyIntervals[..i + 1] == busyIntervals[..i] + [busyIntervals[i]];
      forall t ensures Covers(clipped, t) <==> Covers(busyIntervals[..i + 1], t) && Holds(planning, t) {
        CoversAppend(busyIntervals[..i], busyIntervals[i], t);
        if start < end {
          CoversAppend(before, Span(start, end), t);
        }
      }
    }
    assert busyIntervals[..|busyIntervals|] == busyIntervals;
    merged := MergeIntervals(clipped);
  }

  // ----- subtraction -----

  /** The working time not busy, as a list. */
  ghost predicate IsDifference(free: seq<TimeInterval>, working: seq<TimeInterval>, busy: seq<TimeInterval>) {
    && Canonical(free)
    && forall t :: Covers(free, t) <==> Covers(working, t) && !Covers(busy, t)
  }

  /** What the inner loop has settled: working time before the cursor is free unless busy. */
  ghost predicate Settled(
    free: seq<TimeInterval>, done: seq<TimeInterval>, w: TimeInterval, busy: seq<TimeInterval>, cursor: int)
  {
    && Canonical(free)
    && (forall i :: 0 <= i < |free| ==> free[i].end < cursor)
    && (forall t :: w.end <= t < cursor ==> Covers(busy, t))
    && (forall t :: Covers(free, t) <==>
         (Covers(done, t) || w.start <= t < cursor) && !Covers(busy, t))
  }

  /** The busy intervals from index i on start after the cursor; the ones before have ended by it. */
  ghost predicate Passed(busy: seq<TimeInterval>, i: nat, w: TimeInterval, cursor: int) {
    && (forall j :: 0 <= j < i <= |busy| ==> busy[j].end <= cursor)
    && (cursor == w.start || forall j :: i <= j < |busy| ==> cursor < busy[j].start)
  }

  lemma StartWorking(free: seq<TimeInterval>, working: seq<TimeInterval>, k: nat, busy: seq<TimeInterval>)
    requires k < |working| && Canonical(working)
    requires IsDifference(free, working[..k], busy)
    ensures Settled(free, working[..k], working[k], busy, working[k].start)
  {
    forall i | 0 <= i < |free| ensures free[i].end < working[k].start {
      assert Holds(free[i], free[i].end - 1);
      assert Covers(free, free[i].end - 1);
      var j :| 0 <= j < k && Holds(working[..k][j], free[i].end - 1);
      assert working[j].end < working[k].start;
    }
  }

  lemma StartDifference(busy: seq<TimeInterval>)
    ensures IsDifference([], [], busy)
  {
  }

  /** The cursor starts with the working interval; busy intervals that have ended are passed. */
  lemma StartPassing(busy: seq<TimeInterval>, w: TimeInterval)
    ensures Passed(busy, 0, w, w.start)
  {
  }

  lemma PassEnded(busy: seq<TimeInterval>, i: nat, w: TimeInterval, cursor: int)
    requires i < |busy| && Passed(busy, i, w, cursor) && busy[i].end <= cursor
    ensures Passed(busy, i + 1, w, cursor)
  {
  }

  /** Taking the free run before a busy interval, and skipping the interval, settles up to its end. */
  lemma PassBusy(
    free: seq<TimeInterval>, done: seq<TimeInterval>, w: TimeInterval, busy: seq<TimeInterval>, cursor: int, i: nat)
    requires i < |busy| && Canonical(busy)
    requires Settled(free, done, w, busy, cursor) && Passed(busy, i, w, cursor)
    requires w.start <= cursor < w.end
    requires cursor < busy[i].end && busy[i].start < w.end
    ensures var free' := if busy[i].start > cursor then free + [Span(cursor, busy[i].start)] else free;
      Settled(free', done, w, busy, busy[i].end) && Passed(busy, i + 1, w, busy[i].end)
  {
    var b := busy[i];
    forall t | b.start <= t < b.end ensures Covers(busy, t) {
      assert Holds(busy[i], t);
    }
    if b.start > cursor {
      NotBusyBetween(busy, i, w, cursor, b.start);
      forall t ensures Covers(free + [Span(cursor, b.start)], t) <==>
                       (Covers(done, t) || w.start <= t < b.end) && !Covers(busy, t)
      {
        CoversAppend(free, Span(cursor, b.start), t);
      }
    }
  }

  lemma NotBusyBetween(busy: seq<TimeInterval>, i: nat, w: TimeInterval, cursor: int, end: int)
    requires i <= |busy| && Canonical(busy) && Passed(busy, i, w, cursor)
    requires forall j :: i <= j < |busy| ==> end <= busy[j].start
    ensures forall t :: cursor <= t < end ==> !Covers(busy, t)
  {
  }

  /** When the inner loop ends, nothing busy is left in the working interval. */
  lemma RestIsFree(busy: seq<TimeInterval>, i: nat, w: TimeInterval, cursor: int)
    requires i <= |busy| && Canonical(busy) && Passed(busy, i, w, cursor)
    requires i == |busy| || busy[i].start >= w.end || cursor >= w.end
    ensures forall t :: cursor <= t < w.end ==> !Covers(busy, t)
  {
    if cursor < w.end {
      NotBusyBetween(busy, i, w, cursor, w.end);
    }
  }

  /** The rest of the working interval is free. */
  lemma FinishWorking(
    free: seq<TimeInterval>, done: seq<TimeInterval>, w: TimeInterval, busy: seq<TimeInterval>, cursor: int)
    requires Settled(free, done, w, busy, cursor) && w.start <= cursor
    requires forall t :: cursor <= t < w.end ==> !Covers(busy, t)
    ensures IsDifference(if cursor < w.end then free + [Span(cursor, w.end)] else free, done + [w], busy)
  {
    var free' := if cursor < w.end then free + [Span(cursor, w.end)] else free;
    forall t ensures Covers(free', t) <==> Covers(done + [w], t) && !Covers(busy, t) {
      CoversAppend(done, w, t);
      if cursor < w.end {
        CoversAppend(free, Span(cursor, w.end), t);
      }
    }
  }

  method SubtractBusy(working: seq<TimeInterval>, busy: seq<TimeInterval>) returns (free: seq<TimeInterval>)
    requires Canonical(working) && Canonical(busy)
    ensures IsDifference(free, working, busy)
  {
    hide IsDifference, Settled, Passed, Canonical, Covers;
    free := [];
    StartDifference(busy);
    for k := 0 to |working|
      invariant IsDifference(free, working[..k], busy)
    {
      var w := working[k];
      var cursor := w.start;
      var i := 0;
      StartWorking(free, working, k, busy);
      StartPassing(busy, w);
      while i < |busy|
        invariant 0 <= i <= |busy|
        invariant w.start <= cursor < w.end
        invariant Settled(free, working[..k], w, busy, cursor) && Passed(busy, i, w, cursor)
      {
        if busy[i].end <= cursor {
          PassEnded(busy, i, w, cursor);
          i := i + 1;
          continue;
        }
        if busy[i].start >= w.end {
          break;
        }
        PassBusy(free, working[..k], w, busy, cursor, i);
        if busy[i].start > cursor {
          free := free + [Span(cursor, Min(busy[i].start, w.end))];
        }
        cursor := Max(cursor, busy[i].end);
        i := i + 1;
        if cursor >= w.end {
          break;
        }
      }
      RestIsFree(busy, i, w, cursor);
      FinishWorking(free, working[..k], w, busy, cursor);
      if cursor < w.end {
        free := free + [Span(cursor, w.end)];
      }
      assert working[..k + 1] == working[..k] + [w];
    }
    assert working[..|working|] == working;
  }

  // ----- the whole calculation -----

  /** The free list: canonical, and exactly the planned, worked, not busy instants. */
  ghost predicate IsFreeTime(
    free: seq<TimeInterval>, planning: TimeInterval, hours: WorkingHours, busy: seq<TimeInterval>, zone: Zone)
    requires AllWeekdays(hours)
  {
    && Canonical(free)
    && forall t :: Covers(free, t) <==>
         Holds(planning, t) && Working(zone, hours, planning, t) && !Covers(busy, t)
  }

  method CalculateFreeIntervals(
    planning: TimeInterval, hours: WorkingHours, busyIntervals: seq<TimeInterval>, zone: Zone)
    returns (r: Result<seq<TimeInterval>, Error>)
    ensures !AllWeekdays(hours) ==> r == Err(IncompleteWorkingHours)
    ensures AllWeekdays(hours) ==> (r.Ok? <==> AllResolvable(zone, hours, planning))
    ensures r.Ok? ==> IsFreeTime(r.value, planning, hours, busyIntervals, zone)
  {
    if !AllWeekdays(hours) {
      return Err(IncompleteWorkingHours);
    }
    var working := WorkingIntervals(planning, hours, zone);
    if working.Err? {
      return working;
    }
    var busy := NormalizeBusyIntervals(busyIntervals, planning);
    var free := SubtractBusy(working.value, busy);
    return Ok(free);
  }

  /** Only the union of the busy time matters, not how it is cut up, ordered or repeated. */
  lemma FreeTimeDependsOnBusyUnion(
    free1: seq<TimeInterval>, free2: seq<TimeInterval>, planning: TimeInterval, hours: WorkingHours,
    busy1: seq<TimeInterval>, busy2: seq<TimeInterval>, zone: Zone)
    requires AllWeekdays(hours)
    requires IsFreeTime(free1, planning, hours, busy1, zone)
    requires IsFreeTime(free2, planning, hours, busy2, zone)
    requires SameInstants(busy1, busy2)
    ensures free1 == free2
  {
    CanonicalUnique(free1, free2);
  }
}
