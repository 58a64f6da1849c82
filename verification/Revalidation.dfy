/**
  app/schedule_plans/revalidation.py with the reservation query of repository.py: are the
  exact sessions of a confirmed plan still free?
 */
module Revalidation {
  import opened Prelude
  import opened Sorting
  import opened Orders
  import opened Intervals
  import Plans
  import CalendarMapper

  // ----- values -----

  datatype Source = FromProvider | FromPlans

  /** A busy interval with its origin; it may be empty, never reversed. */
  datatype Busy = Busy(start: int, end: int, calendarId: string, provider: string, source: Source) {
    predicate Valid() { start <= end }

    function Key(): (string, Source) { (provider, source) }
  }

  datatype CheckedSession = CheckedSession(id: string, order: int, span: TimeInterval)

  datatype ConflictKind = DirectOverlap | BreakViolation

  datatype Conflict = Conflict(sessionId: string, kind: ConflictKind, matching: seq<Busy>, overlapMinutes: int)

  // ----- the two tests -----

  predicate OverlapsBusy(s: TimeInterval, b: Busy) {
    s.start < b.end && b.start < s.end
  }

  /** No overlap, but a gap shorter than a positive break. */
  predicate TooNear(s: TimeInterval, b: Busy, breakMinutes: int) {
    && !OverlapsBusy(s, b)
    && breakMinutes > 0
    && (if s.end <= b.start then b.start - s.end < breakMinutes * MINUTE
        else b.end <= s.start && s.start - b.end < breakMinutes * MINUTE)
  }

  function Overlapping(s: TimeInterval, intervals: seq<Busy>): seq<Busy> {
    if intervals == [] then []
    else
      var last := intervals[|intervals| - 1];
      Overlapping(s, intervals[..|intervals| - 1]) + (if OverlapsBusy(s, last) then [last] else [])
  }

  function Nearby(s: TimeInterval, intervals: seq<Busy>, breakMinutes: int): seq<Busy> {
    if intervals == [] then []
    else
      var last := intervals[|intervals| - 1];
      Nearby(s, intervals[..|intervals| - 1], breakMinutes) + (if TooNear(s, last, breakMinutes) then [last] else [])
  }

  // ----- dictionaries of lists, in insertion order -----

  type Groups = seq<((string, Source), seq<Busy>)>

  /** `setdefault(key, []).append(item)`. */
  function Append(groups: Groups, b: Busy): Groups {
    if groups == [] then [(b.Key(), [b])]
    else if groups[0].0 == b.Key() then [(groups[0].0, groups[0].1 + [b])] + groups[1..]
    else [groups[0]] + Append(groups[1..], b)
  }

  function GroupAll(intervals: seq<Busy>): Groups {
    if intervals == [] then [] else Append(GroupAll(intervals[..|intervals| - 1]), intervals[|intervals| - 1])
  }

  function Keys(groups: Groups): seq<(string, Source)> {
    seq(|groups|, i requires 0 <= i < |groups| => groups[i].0)
  }

  function HasKey(key: (string, Source)): Busy -> bool {
    (b: Busy) => b.Key() == key
  }

  /** Each key of the intervals once, with exactly its intervals, in their order. */
  ghost predicate IsGrouping(groups: Groups, intervals: seq<Busy>) {
    && (forall i, j :: 0 <= i < j < |groups| ==> groups[i].0 != groups[j].0)
    && (forall i :: 0 <= i < |groups| ==> groups[i].1 == Filter(intervals, HasKey(groups[i].0)) != [])
    && (forall b | b in intervals :: b.Key() in Keys(groups))
  }

  /** The interval joins its group, or starts one at the end. */
  lemma {:induction false} AppendAt(groups: Groups, b: Busy)
    ensures var r := Append(groups, b);
      if b.Key() in Keys(groups)
      then exists k: nat | k < |groups| ::
        && groups[k].0 == b.Key() && r == groups[k := (groups[k].0, groups[k].1 + [b])]
        && b.Key() !in Keys(groups)[..k]
      else r == groups + [(b.Key(), [b])]
  {
    if groups != [] {
      var rest := groups[1..];
      assert Keys(groups) == [groups[0].0] + Keys(rest);
      assert groups == [groups[0]] + rest;
      if groups[0].0 == b.Key() {
        assert Append(groups, b) == groups[0 := (groups[0].0, groups[0].1 + [b])];
        assert Keys(groups)[..0] == [];
      } else {
        AppendAt(rest, b);
        if b.Key() in Keys(groups) {
          assert b.Key() in Keys(rest);
          var k: nat :| k < |rest| && rest[k].0 == b.Key()
            && Append(rest, b) == rest[k := (rest[k].0, rest[k].1 + [b])] && b.Key() !in Keys(rest)[..k];
          assert Append(groups, b) == groups[k + 1 := (groups[k + 1].0, groups[k + 1].1 + [b])];
          assert Keys(groups)[..k + 1] == [groups[0].0] + Keys(rest)[..k];
          assert groups[k + 1].0 == b.Key();
        }
      }
    }
  }

  lemma GroupingNext(groups: Groups, intervals: seq<Busy>, b: Busy)
    requires IsGrouping(groups, intervals)
    ensures IsGrouping(Append(groups, b), intervals + [b])
  {
    hide Append, Filter, HasKey;
    var r := Append(groups, b);
    AppendAt(groups, b);
    forall i | 0 <= i < |groups|
      ensures Filter(intervals + [b], HasKey(groups[i].0)) ==
              if groups[i].0 == b.Key() then groups[i].1 + [b] else groups[i].1
    {
      FilterNext(intervals, b, HasKey(groups[i].0));
      KeyTest(b, groups[i].0);
      assert groups[i].1 + [] == groups[i].1;
    }
    if b.Key() in Keys(groups) {
      assert Keys(r) == Keys(groups);
    } else {
      NewKey(groups, intervals, b);
      assert Keys(r) == Keys(groups) + [b.Key()];
      forall i | 0 <= i < |groups| ensures groups[i].0 != b.Key() {
        assert Keys(groups)[i] == groups[i].0;
      }
    }
  }

  lemma KeyTest(b: Busy, key: (string, Source))
    ensures HasKey(key)(b) <==> b.Key() == key
  {
  }

  lemma NewKey(groups: Groups, intervals: seq<Busy>, b: Busy)
    requires IsGrouping(groups, intervals) && b.Key() !in Keys(groups)
    ensures Filter(intervals + [b], HasKey(b.Key())) == [b]
  {
    FilterNext(intervals, b, HasKey(b.Key()));
    forall i | 0 <= i < |intervals| ensures !HasKey(b.Key())(intervals[i]) {
      assert intervals[i] in intervals;
    }
    FilterNone(intervals, HasKey(b.Key()));
  }

  /** Grouping is exact. */
  lemma {:induction false} GroupsAreExact(intervals: seq<Busy>)
    ensures IsGrouping(GroupAll(intervals), intervals)
  {
    hide Append;
    if intervals != [] {
      var init, last := intervals[..|intervals| - 1], intervals[|intervals| - 1];
      GroupsAreExact(init);
      GroupingNext(GroupAll(init), init, last);
      assert intervals == init + [last];
    }
  }

  /** The overlap in microseconds, added up. */
  function OverlapTicks(s: TimeInterval, matching: seq<Busy>): int {
    if matching == [] then 0
    else
      var b := matching[|matching| - 1];
      OverlapTicks(s, matching[..|matching| - 1]) + (Min(s.end, b.end) - Max(s.start, b.start))
  }

  /** `max(1, ceil(seconds / 60))`. */
  function OverlapMinutes(ticks: int): int {
    Max(1, (ticks + MINUTE - 1) / MINUTE)
  }

  function OverlapConflicts(s: CheckedSession, groups: Groups): seq<Conflict> {
    seq(|groups|, i requires 0 <= i < |groups| =>
      Conflict(s.id, DirectOverlap, groups[i].1, OverlapMinutes(OverlapTicks(s.span, groups[i].1))))
  }

  function BreakConflicts(s: CheckedSession, groups: Groups): seq<Conflict> {
    seq(|groups|, i requires 0 <= i < |groups| => Conflict(s.id, BreakViolation, groups[i].1, 0))
  }

  function SessionConflicts(s: CheckedSession, intervals: seq<Busy>, breakMinutes: int): seq<Conflict> {
    OverlapConflicts(s, GroupAll(Overlapping(s.span, intervals)))
    + BreakConflicts(s, GroupAll(Nearby(s.span, intervals, breakMinutes)))
  }

  function AllConflicts(sessions: seq<CheckedSession>, intervals: seq<Busy>, breakMinutes: int): seq<Conflict> {
    if sessions == [] then []
    else
      AllConflicts(sessions[..|sessions| - 1], intervals, breakMinutes)
      + SessionConflicts(sessions[|sessions| - 1], intervals, breakMinutes)
  }

  predicate SessionLe(a: CheckedSession, b: CheckedSession) {
    a.order <= b.order
  }

  function DetectConflicts(sessions: seq<CheckedSession>, intervals: seq<Busy>, breakMinutes: int): seq<Conflict> {
    AllConflicts(Sort(sessions, SessionLe), intervals, breakMinutes)
  }

  // ----- the loops of _detect_sourced_conflicts -----

  /** The inner loop: one session against every interval. */
  method SortOut(s: TimeInterval, intervals: seq<Busy>, breakMinutes: int) returns (overlaps: Groups, near: Groups)
    ensures overlaps == GroupAll(Overlapping(s, intervals))
    ensures near == GroupAll(Nearby(s, intervals, breakMinutes))
    ensures IsGrouping(overlaps, Overlapping(s, intervals))
    ensures IsGrouping(near, Nearby(s, intervals, breakMinutes))
  {
    hide IsGrouping;
    overlaps, near := [], [];
    for k := 0 to |intervals|
      invariant overlaps == GroupAll(Overlapping(s, intervals[..k]))
      invariant near == GroupAll(Nearby(s, intervals[..k], breakMinutes))
    {
      var busy := intervals[k];
      assert intervals[..k + 1][..k] == intervals[..k];
      GroupNext(Overlapping(s, intervals[..k]), busy);
      GroupNext(Nearby(s, intervals[..k], breakMinutes), busy);
      if s.start < busy.end && busy.start < s.end {
        overlaps := Append(overlaps, busy);
        continue;
      }
      if breakMinutes <= 0 {
        continue;
      }
      var gap: Option<int> := None;
      if s.end <= busy.start {
        gap := Some(busy.start - s.end);
      } else if busy.end <= s.start {
        gap := Some(s.start - busy.end);
      }
      if gap.Some? && gap.value < breakMinutes * MINUTE {
        near := Append(near, busy);
      }
    }
    assert intervals[..|intervals|] == intervals;
    GroupsAreExact(Overlapping(s, intervals));
    GroupsAreExact(Nearby(s, intervals, breakMinutes));
  }

  lemma GroupNext(intervals: seq<Busy>, b: Busy)
    ensures GroupAll(intervals + [b]) == Append(GroupAll(intervals), b)
    ensures intervals + [] == intervals
  {
    assert (intervals + [b])[..|intervals|] == intervals;
  }

  // _detect_sourced_conflicts
  method Detect(sessions: seq<CheckedSession>, intervals: seq<Busy>, breakMinutes: int)
    returns (conflicts: seq<Conflict>)
    ensures conflicts == DetectConflicts(sessions, intervals, breakMinutes)
  {
    hide Overlapping, Nearby, GroupAll;
    var ordered := Sort(sessions, SessionLe);
    conflicts := [];
    for i := 0 to |ordered|
      invariant conflicts == AllConflicts(ordered[..i], intervals, breakMinutes)
    {
      assert ordered[..i + 1][..i] == ordered[..i];
      var overlaps, near := SortOut(ordered[i].span, intervals, breakMinutes);
      conflicts := conflicts + (OverlapConflicts(ordered[i], overlaps) + BreakConflicts(ordered[i], near));
    }
    assert ordered[..|ordered|] == ordered;
  }

  // ----- exactness -----

  /** Within the break of the session, or overlapping it; a break that is not positive counts as none. */
  predicate Close(s: TimeInterval, b: Busy, breakMinutes: int) {
    var gap := Max(breakMinutes, 0) * MINUTE;
    s.start - gap < b.end && b.start < s.end + gap
  }

  ghost predicate Disturbed(s: CheckedSession, intervals: seq<Busy>, breakMinutes: int) {
    exists b | b in intervals :: Close(s.span, b, breakMinutes)
  }

  ghost predicate Reported(conflicts: seq<Conflict>, id: string) {
    exists c | c in conflicts :: c.sessionId == id
  }

  ghost predicate ValidIntervals(intervals: seq<Busy>) {
    forall b | b in intervals :: b.Valid()
  }

  lemma CloseIsOverlapOrNear(s: TimeInterval, b: Busy, breakMinutes: int)
    requires b.Valid()
    ensures Close(s, b, breakMinutes) <==> OverlapsBusy(s, b) || TooNear(s, b, breakMinutes)
  {
  }

  lemma {:induction false} MatchesFound(s: TimeInterval, intervals: seq<Busy>, breakMinutes: int)
    ensures Overlapping(s, intervals) != [] <==> exists b | b in intervals :: OverlapsBusy(s, b)
    ensures Nearby(s, intervals, breakMinutes) != [] <==> exists b | b in intervals :: TooNear(s, b, breakMinutes)
  {
    if intervals != [] {
      var init, last := intervals[..|intervals| - 1], intervals[|intervals| - 1];
      MatchesFound(s, init, breakMinutes);
      assert last in intervals && forall b | b in init :: b in intervals;
      assert forall b | b in intervals :: b == last || b in init;
    }
  }

  lemma AppendNonEmpty(groups: Groups, b: Busy)
    ensures Append(groups, b) != []
  {
  }

  lemma GroupsNonEmpty(intervals: seq<Busy>)
    ensures GroupAll(intervals) == [] <==> intervals == []
  {
    if intervals != [] {
      AppendNonEmpty(GroupAll(intervals[..|intervals| - 1]), intervals[|intervals| - 1]);
    }
  }

  /** A session has conflicts exactly when it is disturbed, and they name it. */
  lemma SessionReported(s: CheckedSession, intervals: seq<Busy>, breakMinutes: int)
    requires ValidIntervals(intervals)
    ensures SessionConflicts(s, intervals, breakMinutes) != [] <==> Disturbed(s, intervals, breakMinutes)
    ensures forall c | c in SessionConflicts(s, intervals, breakMinutes) :: c.sessionId == s.id
  {
    hide Append, Close, OverlapsBusy, TooNear;
    MatchesFound(s.span, intervals, breakMinutes);
    GroupsNonEmpty(Overlapping(s.span, intervals));
    GroupsNonEmpty(Nearby(s.span, intervals, breakMinutes));
    forall b | b in intervals
      ensures Close(s.span, b, breakMinutes) <==> OverlapsBusy(s.span, b) || TooNear(s.span, b, breakMinutes)
    {
      CloseIsOverlapOrNear(s.span, b, breakMinutes);
    }
    var overlaps := OverlapConflicts(s, GroupAll(Overlapping(s.span, intervals)));
    var near := BreakConflicts(s, GroupAll(Nearby(s.span, intervals, breakMinutes)));
    assert SessionConflicts(s, intervals, breakMinutes) == overlaps + near;
    assert overlaps == [] <==> Overlapping(s.span, intervals) == [];
    assert near == [] <==> Nearby(s.span, intervals, breakMinutes) == [];
  }

  lemma {:induction false} AllReported(
    sessions: seq<CheckedSession>, intervals: seq<Busy>, breakMinutes: int, id: string)
    requires ValidIntervals(intervals)
    ensures Reported(AllConflicts(sessions, intervals, breakMinutes), id) <==>
            exists s | s in sessions :: s.id == id && Disturbed(s, intervals, breakMinutes)
  {
    hide SessionConflicts, Disturbed;
    if sessions != [] {
      var init, last := sessions[..|sessions| - 1], sessions[|sessions| - 1];
      AllReported(init, intervals, breakMinutes, id);
      SessionReported(last, intervals, breakMinutes);
      var before, own := AllConflicts(init, intervals, breakMinutes), SessionConflicts(last, intervals, breakMinutes);
      var all := AllConflicts(sessions, intervals, breakMinutes);
      assert forall c :: c in all <==> c in before || c in own;
      assert forall s :: s in sessions <==> s in init || s == last;
      if own != [] {
        assert own[0] in own;
      }
    }
  }

  /**
    Exactness: an id is reported iff one of its sessions overlaps a busy interval or is closer
    to one than the break.
   */
  lemma ReportedIff(sessions: seq<CheckedSession>, intervals: seq<Busy>, breakMinutes: int, id: string)
    requires ValidIntervals(intervals)
    ensures Reported(DetectConflicts(sessions, intervals, breakMinutes), id) <==>
            exists s | s in sessions :: s.id == id && Disturbed(s, intervals, breakMinutes)
  {
    hide Disturbed;
    SameElements(Sort(sessions, SessionLe), sessions);
    AllReported(Sort(sessions, SessionLe), intervals, breakMinutes, id);
  }

  // ----- locality -----

  function EarliestStart(sessions: seq<CheckedSession>): (r: int)
    requires sessions != []
    ensures forall s | s in sessions :: r <= s.span.start
  {
    if |sessions| == 1 then sessions[0].span.start
    else
      assert forall s | s in sessions :: s == sessions[|sessions| - 1] || s in sessions[..|sessions| - 1];
      Min(EarliestStart(sessions[..|sessions| - 1]), sessions[|sessions| - 1].span.start)
  }

  function LatestEnd(sessions: seq<CheckedSession>): (r: int)
    requires sessions != []
    ensures forall s | s in sessions :: s.span.end <= r
  {
    if |sessions| == 1 then sessions[0].span.end
    else
      assert forall s | s in sessions :: s == sessions[|sessions| - 1] || s in sessions[..|sessions| - 1];
      Max(LatestEnd(sessions[..|sessions| - 1]), sessions[|sessions| - 1].span.end)
  }

  /** `_query_window`: the sessions' extent, padded by the greater of the padding and the break. */
  function QueryWindow(sessions: seq<CheckedSession>, paddingMinutes: int, breakMinutes: int): (r: Option<Span>)
    ensures r.Some? <==> sessions != []
  {
    if sessions == [] then None
    else
      var padding := Max(paddingMinutes, breakMinutes) * MINUTE;
      Some(Span(EarliestStart(sessions) - padding, LatestEnd(sessions) + padding))
  }

  /** The half-open overlap of an interval with the window. */
  function InWindow(window: Span): Busy -> bool {
    (b: Busy) => b.start < window.end && window.start < b.end
  }

  /** Whatever is close to a session overlaps the query window. */
  lemma CloseIsInWindow(
    sessions: seq<CheckedSession>, s: CheckedSession, b: Busy, paddingMinutes: int, breakMinutes: int)
    requires s in sessions && b.Valid() && paddingMinutes >= 0
    requires Close(s.span, b, breakMinutes)
    ensures InWindow(QueryWindow(sessions, paddingMinutes, breakMinutes).value)(b)
  {
  }

  lemma {:induction false} FarIntervalsIgnored(
    s: TimeInterval, intervals: seq<Busy>, breakMinutes: int, p: Busy -> bool)
    requires ValidIntervals(intervals)
    requires forall b | b in intervals && Close(s, b, breakMinutes) :: p(b)
    ensures Overlapping(s, Filter(intervals, p)) == Overlapping(s, intervals)
    ensures Nearby(s, Filter(intervals, p), breakMinutes) == Nearby(s, intervals, breakMinutes)
  {
    hide OverlapsBusy, TooNear, Close;
    if intervals != [] {
      var init, last := intervals[..|intervals| - 1], intervals[|intervals| - 1];
      assert last in intervals && forall b | b in init :: b in intervals;
      FarIntervalsIgnored(s, init, breakMinutes, p);
      CloseIsOverlapOrNear(s, last, breakMinutes);
      if p(last) {
        assert Filter(intervals, p)[..|Filter(init, p)|] == Filter(init, p);
      } else {
        assert Filter(intervals, p) == Filter(init, p) + [] == Filter(init, p);
        assert Overlapping(s, intervals) == Overlapping(s, init) + [] == Overlapping(s, init);
        assert Nearby(s, intervals, breakMinutes) ==
               Nearby(s, init, breakMinutes) + [] == Nearby(s, init, breakMinutes);
      }
    }
  }

  lemma {:induction false} AllIgnoreFar(
    sessions: seq<CheckedSession>, intervals: seq<Busy>, breakMinutes: int, p: Busy -> bool)
    requires ValidIntervals(intervals)
    requires forall s, b | s in sessions && b in intervals && Close(s.span, b, breakMinutes) :: p(b)
    ensures AllConflicts(sessions, Filter(intervals, p), breakMinutes) ==
            AllConflicts(sessions, intervals, breakMinutes)
  {
    hide Close, ValidIntervals, OverlapConflicts, BreakConflicts;
    if sessions != [] {
      var init, last := sessions[..|sessions| - 1], sessions[|sessions| - 1];
      assert last in sessions && forall s | s in init :: s in sessions;
      AllIgnoreFar(init, intervals, breakMinutes, p);
      FarIntervalsIgnored(last.span, intervals, breakMinutes, p);
    }
  }

  /** Locality: intervals that do not overlap the padded query window change no conflict at all. */
  lemma {:induction false} OutsideWindowIsIrrelevant(
    sessions: seq<CheckedSession>, intervals: seq<Busy>, paddingMinutes: int, breakMinutes: int)
    requires sessions != [] && ValidIntervals(intervals) && paddingMinutes >= 0
    ensures var window := QueryWindow(sessions, paddingMinutes, breakMinutes).value;
      DetectConflicts(sessions, Filter(intervals, InWindow(window)), breakMinutes) ==
      DetectConflicts(sessions, intervals, breakMinutes)
  {
    hide QueryWindow, Close;
    var window := QueryWindow(sessions, paddingMinutes, breakMinutes);
    SameElements(Sort(sessions, SessionLe), sessions);
    forall s, b | s in Sort(sessions, SessionLe) && b in intervals && Close(s.span, b, breakMinutes)
      ensures InWindow(window.value)(b)
    {
      CloseIsInWindow(sessions, s, b, paddingMinutes, breakMinutes);
    }
    AllIgnoreFar(Sort(sessions, SessionLe), intervals, breakMinutes, InWindow(window.value));
  }

  // ----- merging -----

  ghost predicate BusyAt(intervals: seq<Busy>, t: int) {
    exists b | b in intervals :: b.start <= t < b.end
  }

  predicate PositiveIntervals(intervals: seq<Busy>) {
    forall b | b in intervals :: b.start < b.end
  }

  /** With positive lengths, a session is disturbed iff some instant of its padded interval is busy. */
  lemma DisturbedByInstant(s: CheckedSession, intervals: seq<Busy>, breakMinutes: int)
    requires PositiveIntervals(intervals)
    ensures Disturbed(s, intervals, breakMinutes) <==>
            var gap := Max(breakMinutes, 0) * MINUTE;
            exists t :: s.span.start - gap <= t < s.span.end + gap && BusyAt(intervals, t)
  {
    var gap := Max(breakMinutes, 0) * MINUTE;
    if Disturbed(s, intervals, breakMinutes) {
      var b :| b in intervals && Close(s.span, b, breakMinutes);
      var t := Max(b.start, s.span.start - gap);
      assert b.start <= t < b.end;
      assert BusyAt(intervals, t);
    }
    if exists t :: s.span.start - gap <= t < s.span.end + gap && BusyAt(intervals, t) {
      var t :| s.span.start - gap <= t < s.span.end + gap && BusyAt(intervals, t);
      var b :| b in intervals && b.start <= t < b.end;
      assert Close(s.span, b, breakMinutes);
    }
  }

  /** Merging, or any other rearrangement with the same busy instants, reports the same sessions. */
  lemma MergingChangesNoReport(
    sessions: seq<CheckedSession>, a: seq<Busy>, b: seq<Busy>, breakMinutes: int, id: string)
    requires PositiveIntervals(a) && PositiveIntervals(b)
    requires forall t :: BusyAt(a, t) <==> BusyAt(b, t)
    ensures Reported(DetectConflicts(sessions, a, breakMinutes), id) <==>
            Reported(DetectConflicts(sessions, b, breakMinutes), id)
  {
    hide DetectConflicts, Disturbed, BusyAt;
    ReportedIff(sessions, a, breakMinutes, id);
    ReportedIff(sessions, b, breakMinutes, id);
    forall s | s in sessions ensures Disturbed(s, a, breakMinutes) <==> Disturbed(s, b, breakMinutes) {
      DisturbedByInstant(s, a, breakMinutes);
      DisturbedByInstant(s, b, breakMinutes);
    }
  }

  /** The provider's intervals as detection gets them. */
  function FromItems(items: seq<CalendarMapper.ProviderBusy>, provider: string): seq<Busy> {
    seq(|items|, i requires 0 <= i < |items| =>
      Busy(items[i].start, items[i].end, items[i].calendarId, provider, FromProvider))
  }

  function FromSpans(spans: seq<TimeInterval>, provider: string): seq<Busy> {
    seq(|spans|, i requires 0 <= i < |spans| => Busy(spans[i].start, spans[i].end, "", provider, FromProvider))
  }

  lemma ItemsBusyAt(items: seq<CalendarMapper.ProviderBusy>, provider: string, t: int)
    ensures BusyAt(FromItems(items, provider), t) <==> CalendarMapper.ProviderCovers(items, t)
  {
    var intervals := FromItems(items, provider);
    if CalendarMapper.ProviderCovers(items, t) {
      var i :| 0 <= i < |items| && items[i].start <= t < items[i].end;
      assert intervals[i] in intervals;
    }
  }

  lemma SpansBusyAt(spans: seq<TimeInterval>, provider: string, t: int)
    ensures BusyAt(FromSpans(spans, provider), t) <==> Covers(spans, t)
  {
    var intervals := FromSpans(spans, provider);
    if Covers(spans, t) {
      var i :| 0 <= i < |spans| && Holds(spans[i], t);
      assert intervals[i] in intervals;
    }
  }

  /** In particular the merged list the mapper makes of a provider's positive intervals reports the same sessions. */
  lemma MapperMergeChangesNoReport(
    sessions: seq<CheckedSession>, items: seq<CalendarMapper.ProviderBusy>, merged: seq<TimeInterval>,
    provider: string, breakMinutes: int, id: string)
    requires forall i :: 0 <= i < |items| ==> items[i].start < items[i].end
    requires CalendarMapper.Collected(merged, items)
    ensures Reported(DetectConflicts(sessions, FromItems(items, provider), breakMinutes), id) <==>
            Reported(DetectConflicts(sessions, FromSpans(merged, provider), breakMinutes), id)
  {
    hide DetectConflicts;
    forall t ensures BusyAt(FromItems(items, provider), t) <==> BusyAt(FromSpans(merged, provider), t) {
      ItemsBusyAt(items, provider, t);
      SpansBusyAt(merged, provider, t);
    }
    MergingChangesNoReport(sessions, FromItems(items, provider), FromSpans(merged, provider), breakMinutes, id);
  }

  // ----- the reservation query -----

  /** A stored session with what the query needs of its plan. */
  datatype StoredSession = StoredSession(
    planId: string, user: string, status: Plans.PlanStatus, sessionId: string, span: TimeInterval)

  /** The `where` clause of `list_reserved_intervals`. */
  function Selected(user: string, window: Span, exclude: Option<string>): StoredSession -> bool {
    (r: StoredSession) =>
      && r.user == user
      && Plans.Reserves(r.status)
      && r.span.start < window.end && window.start < r.span.end
      && (exclude.Some? ==> r.planId != exclude.value)
  }

  predicate StoredLe(a: StoredSession, b: StoredSession) {
    if a.span != b.span then SpanLe(a.span, b.span) else StringLe(a.sessionId, b.sessionId)
  }

  /** `list_reserved_intervals`; a window that is not positive raises. */
  function ListReserved(rows: seq<StoredSession>, user: string, window: Span, exclude: Option<string>)
    : Option<seq<StoredSession>>
  {
    if window.start >= window.end then None
    else Some(Sort(Filter(rows, Selected(user, window, exclude)), StoredLe))
  }

  function BusyOf(row: StoredSession): Busy {
    Busy(row.span.start, row.span.end, row.planId, "internal", FromPlans)
  }

  function FromReservations(rows: seq<StoredSession>): seq<Busy> {
    seq(|rows|, i requires 0 <= i < |rows| => BusyOf(rows[i]))
  }

  /** The same query without a time window. */
  function SelectedAnytime(user: string, exclude: Option<string>): StoredSession -> bool {
    (r: StoredSession) => r.user == user && Plans.Reserves(r.status) && (exclude.Some? ==> r.planId != exclude.value)
  }

  ghost predicate DisturbedByRow(s: CheckedSession, rows: seq<StoredSession>, breakMinutes: int) {
    exists r | r in rows :: Close(s.span, BusyOf(r), breakMinutes)
  }

  lemma DisturbedRows(s: CheckedSession, rows: seq<StoredSession>, breakMinutes: int)
    ensures Disturbed(s, FromReservations(rows), breakMinutes) <==> DisturbedByRow(s, rows, breakMinutes)
  {
    hide Close;
    var intervals := FromReservations(rows);
    if DisturbedByRow(s, rows, breakMinutes) {
      var r :| r in rows && Close(s.span, BusyOf(r), breakMinutes);
      var i :| 0 <= i < |rows| && rows[i] == r;
      assert intervals[i] in intervals;
    }
  }

  /** The windowed query keeps every row close to a session. */
  lemma CloseRowsListed(
    sessions: seq<CheckedSession>, s: CheckedSession, rows: seq<StoredSession>, user: string, exclude: Option<string>,
    paddingMinutes: int, breakMinutes: int)
    requires s in sessions && paddingMinutes >= 0
    ensures var window := QueryWindow(sessions, paddingMinutes, breakMinutes).value;
            DisturbedByRow(s, Filter(rows, Selected(user, window, exclude)), breakMinutes) <==>
            DisturbedByRow(s, Filter(rows, SelectedAnytime(user, exclude)), breakMinutes)
  {
    hide QueryWindow, Close;
    var window := QueryWindow(sessions, paddingMinutes, breakMinutes).value;
    var narrow, wide := Selected(user, window, exclude), SelectedAnytime(user, exclude);
    forall r | r in rows && Close(s.span, BusyOf(r), breakMinutes) ensures narrow(r) <==> wide(r) {
      CloseIsInWindow(sessions, s, BusyOf(r), paddingMinutes, breakMinutes);
    }
    if DisturbedByRow(s, Filter(rows, narrow), breakMinutes) {
      var r :| r in Filter(rows, narrow) && Close(s.span, BusyOf(r), breakMinutes);
      assert r in Filter(rows, wide);
    }
    if DisturbedByRow(s, Filter(rows, wide), breakMinutes) {
      var r :| r in Filter(rows, wide) && Close(s.span, BusyOf(r), breakMinutes);
      assert r in Filter(rows, narrow);
    }
  }

  /** Restricting the query to the padded window loses no report of a reserved session. */
  lemma {:induction false} ReservationQueryLosesNothing(
    sessions: seq<CheckedSession>, rows: seq<StoredSession>, user: string, exclude: Option<string>,
    paddingMinutes: int, breakMinutes: int, id: string)
    requires sessions != [] && paddingMinutes >= 0
    requires ListReserved(rows, user, QueryWindow(sessions, paddingMinutes, breakMinutes).value, exclude).Some?
    ensures var window := QueryWindow(sessions, paddingMinutes, breakMinutes).value;
      var listed := ListReserved(rows, user, window, exclude).value;
      var all := Filter(rows, SelectedAnytime(user, exclude));
      Reported(DetectConflicts(sessions, FromReservations(listed), breakMinutes), id) <==>
      Reported(DetectConflicts(sessions, FromReservations(all), breakMinutes), id)
  {
    hide DetectConflicts, QueryWindow, Close, Disturbed, Reported, Selected, SelectedAnytime;
    var window := QueryWindow(sessions, paddingMinutes, breakMinutes).value;
    var listed := ListReserved(rows, user, window, exclude).value;
    var all := Filter(rows, SelectedAnytime(user, exclude));
    var narrow := Filter(rows, Selected(user, window, exclude));
    SameElements(listed, narrow);
    ReportedIff(sessions, FromReservations(listed), breakMinutes, id);
    ReportedIff(sessions, FromReservations(all), breakMinutes, id);
    forall s | s in sessions
      ensures Disturbed(s, FromReservations(listed), breakMinutes) <==>
              Disturbed(s, FromReservations(all), breakMinutes)
    {
      DisturbedRows(s, listed, breakMinutes);
      DisturbedRows(s, all, breakMinutes);
      CloseRowsListed(sessions, s, rows, user, exclude, paddingMinutes, breakMinutes);
      assert DisturbedByRow(s, listed, breakMinutes) <==> DisturbedByRow(s, narrow, breakMinutes);
    }
  }

  // ----- the outcome -----

  /** What the provider answered: nothing usable, or intervals with the calendars that failed. */
  datatype Answer = NoAnswer | Answered(items: seq<CalendarMapper.ProviderBusy>, failedCalendars: seq<string>)

  function IntervalsOf(answer: Answer, provider: string, reserved: seq<StoredSession>): seq<Busy> {
    (if answer.Answered? then FromItems(answer.items, provider) else []) + FromReservations(reserved)
  }

  /** The result of a revalidation, in the order the code decides it. */
  function OutcomeOf(answer: Answer, conflicts: seq<Conflict>): Plans.Revalidation {
    if answer.NoAnswer? then Plans.ProviderFailure
    else if answer.failedCalendars != [] then Plans.PartialFailure
    else if conflicts != [] then Plans.Conflict
    else Plans.Valid
  }

  /**
    The result and status part of `revalidate_schedule_plan`: valid exactly when the provider
    answered fully and no session is disturbed, and then the plan is confirmed.
   */
  method RevalidatePlan(
    status: Plans.PlanStatus, sessions: seq<CheckedSession>, answer: Answer, provider: string,
    reserved: seq<StoredSession>, breakMinutes: int)
    returns (outcome: Plans.Revalidation, newStatus: Plans.PlanStatus)
    requires status == Plans.Confirmed || status == Plans.RevalidationRequired
    requires answer.Answered? ==> forall i :: 0 <= i < |answer.items| ==> answer.items[i].start <= answer.items[i].end
    ensures outcome == Plans.Valid <==>
      && answer.Answered? && answer.failedCalendars == []
      && forall s | s in sessions :: !Disturbed(s, IntervalsOf(answer, provider, reserved), breakMinutes)
    ensures Plans.RevalidatedStatus(status, outcome) == Ok(newStatus)
    ensures outcome == Plans.Valid ==> newStatus == Plans.Confirmed
    ensures outcome == OutcomeOf(
      answer, DetectConflicts(sessions, IntervalsOf(answer, provider, reserved), breakMinutes))
  {
    hide DetectConflicts, Disturbed;
    var intervals := IntervalsOf(answer, provider, reserved);
    var conflicts := Detect(sessions, intervals, breakMinutes);
    newStatus := status;
    if answer.NoAnswer? {
      outcome := Plans.ProviderFailure;
    } else if answer.failedCalendars != [] {
      outcome := Plans.PartialFailure;
      if status == Plans.Confirmed {
        newStatus := Plans.RevalidationRequired;
      }
    } else if conflicts != [] {
      outcome := Plans.Conflict;
      if status == Plans.Confirmed {
        newStatus := Plans.RevalidationRequired;
      }
    } else {
      outcome := Plans.Valid;
      if status == Plans.RevalidationRequired {
        newStatus := Plans.Confirmed;
      }
    }
    NoConflictsIff(sessions, intervals, breakMinutes);
  }

  lemma {:induction false} NoConflictsIff(sessions: seq<CheckedSession>, intervals: seq<Busy>, breakMinutes: int)
    requires ValidIntervals(intervals)
    ensures DetectConflicts(sessions, intervals, breakMinutes) == [] <==>
            forall s | s in sessions :: !Disturbed(s, intervals, breakMinutes)
  {
    hide DetectConflicts, Disturbed;
    var conflicts := DetectConflicts(sessions, intervals, breakMinutes);
    if conflicts != [] {
      assert conflicts[0] in conflicts;
      ReportedIff(sessions, intervals, breakMinutes, conflicts[0].sessionId);
    }
    forall s | s in sessions && Disturbed(s, intervals, breakMinutes) ensures conflicts != [] {
      ReportedIff(sessions, intervals, breakMinutes, s.id);
    }
  }
}
