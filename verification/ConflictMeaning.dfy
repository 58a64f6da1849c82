/**
  What a reported conflict means: the kind says overlap or break, the intervals listed are
  exactly those of one source that give cause, in their order, and the minutes are theirs.
 */
module ConflictMeaning {
  import opened Prelude
  import opened Sorting
  import opened Intervals
  import opened Revalidation

  /** The interval neither ends before the session starts nor starts after it ends. */
  predicate Disturbs(s: TimeInterval, b: Busy) {
    !(b.end <= s.start || s.end <= b.start)
  }

  /** It does not, but is less than a positive break away. */
  predicate Crowds(s: TimeInterval, b: Busy, breakMinutes: int) {
    && !Disturbs(s, b) && breakMinutes > 0
    && s.start - breakMinutes * MINUTE < b.end && b.start < s.end + breakMinutes * MINUTE
  }

  /** From one provider or from other plans. */
  predicate FromSource(b: Busy, provider: string, source: Source) {
    b.provider == provider && b.source == source
  }

  function DisturbsFrom(s: TimeInterval, provider: string, source: Source): Busy -> bool {
    (b: Busy) => Disturbs(s, b) && FromSource(b, provider, source)
  }

  function CrowdsFrom(s: TimeInterval, breakMinutes: int, provider: string, source: Source): Busy -> bool {
    (b: Busy) => Crowds(s, b, breakMinutes) && FromSource(b, provider, source)
  }

  /** How long an interval that disturbs the session lies within it. */
  function Common(s: TimeInterval): Busy -> int {
    (b: Busy) => (if b.end < s.end then b.end else s.end) - (if b.start > s.start then b.start else s.start)
  }

  /** Minutes, rounded up, and at least one. */
  predicate RoundsUp(minutes: int, ticks: int) {
    minutes >= 1 && ticks <= minutes * MINUTE && (minutes > 1 ==> (minutes - 1) * MINUTE < ticks)
  }

  /** A conflict of the session with one source. */
  ghost predicate IsConflict(
    c: Conflict, s: CheckedSession, intervals: seq<Busy>, breakMinutes: int, provider: string, source: Source)
  {
    && c.sessionId == s.id && c.matching != []
    && match c.kind
       case DirectOverlap =>
         && c.matching == Filter(intervals, DisturbsFrom(s.span, provider, source))
         && RoundsUp(c.overlapMinutes, SumBy(c.matching, Common(s.span)))
       case BreakViolation =>
         c.matching == Filter(intervals, CrowdsFrom(s.span, breakMinutes, provider, source)) && c.overlapMinutes == 0
  }

  lemma {:induction false} FilterTwice<T(!new)>(s: seq<T>, p: T -> bool, q: T -> bool, both: T -> bool)
    requires forall x :: both(x) <==> p(x) && q(x)
    ensures Filter(Filter(s, p), q) == Filter(s, both)
  {
    if s != [] {
      var init, last := s[..|s| - 1], s[|s| - 1];
      FilterTwice(init, p, q, both);
      if p(last) {
        FilterNext(Filter(init, p), last, q);
      } else {
        assert Filter(init, p) + [] == Filter(init, p);
      }
    }
  }

  function DisturbsTest(s: TimeInterval): Busy -> bool {
    (b: Busy) => Disturbs(s, b)
  }

  function CrowdsTest(s: TimeInterval, breakMinutes: int): Busy -> bool {
    (b: Busy) => Crowds(s, b, breakMinutes)
  }

  lemma {:induction false} MatchesAreFilters(s: TimeInterval, intervals: seq<Busy>, breakMinutes: int)
    requires ValidIntervals(intervals)
    ensures Overlapping(s, intervals) == Filter(intervals, DisturbsTest(s))
    ensures Nearby(s, intervals, breakMinutes) == Filter(intervals, CrowdsTest(s, breakMinutes))
  {
    if intervals != [] {
      var init, last := intervals[..|intervals| - 1], intervals[|intervals| - 1];
      assert last in intervals && forall b | b in init :: b in intervals;
      MatchesAreFilters(s, init, breakMinutes);
    }
  }

  /** The group of a key, among those that give cause. */
  lemma GroupIsFilter(s: TimeInterval, intervals: seq<Busy>, breakMinutes: int, key: (string, Source))
    requires ValidIntervals(intervals)
    ensures Filter(Overlapping(s, intervals), HasKey(key)) == Filter(intervals, DisturbsFrom(s, key.0, key.1))
    ensures Filter(Nearby(s, intervals, breakMinutes), HasKey(key)) ==
            Filter(intervals, CrowdsFrom(s, breakMinutes, key.0, key.1))
  {
    hide Overlapping, Nearby, Disturbs, Crowds;
    MatchesAreFilters(s, intervals, breakMinutes);
    forall b: Busy ensures HasKey(key)(b) <==> FromSource(b, key.0, key.1) {
    }
    FilterTwice(intervals, DisturbsTest(s), HasKey(key), DisturbsFrom(s, key.0, key.1));
    FilterTwice(intervals, CrowdsTest(s, breakMinutes), HasKey(key), CrowdsFrom(s, breakMinutes, key.0, key.1));
  }

  lemma {:induction false} TicksAreCommon(s: TimeInterval, matching: seq<Busy>)
    ensures OverlapTicks(s, matching) == SumBy(matching, Common(s))
  {
    if matching != [] {
      TicksAreCommon(s, matching[..|matching| - 1]);
    }
  }

  lemma MinutesRoundUp(ticks: int)
    ensures RoundsUp(OverlapMinutes(ticks), ticks)
  {
  }

  /** Some conflict of the kind with the source is listed. */
  ghost predicate Listed(
    cs: seq<Conflict>, kind: ConflictKind, s: CheckedSession, intervals: seq<Busy>, breakMinutes: int,
    provider: string, source: Source)
  {
    exists c | c in cs :: c.kind == kind && IsConflict(c, s, intervals, breakMinutes, provider, source)
  }

  ghost predicate WithSome(c: Conflict, s: CheckedSession, intervals: seq<Busy>, breakMinutes: int) {
    exists provider, source :: IsConflict(c, s, intervals, breakMinutes, provider, source)
  }

  /** The conflicts of a session: for each source one overlap, one break violation, each exactly when there is cause. */
  ghost predicate AreConflicts(cs: seq<Conflict>, s: CheckedSession, intervals: seq<Busy>, breakMinutes: int) {
    && (forall c | c in cs :: WithSome(c, s, intervals, breakMinutes))
    && (forall b | b in intervals && Disturbs(s.span, b) ::
          Listed(cs, DirectOverlap, s, intervals, breakMinutes, b.provider, b.source))
    && (forall b | b in intervals && Crowds(s.span, b, breakMinutes) ::
          Listed(cs, BreakViolation, s, intervals, breakMinutes, b.provider, b.source))
    && (forall i, j, provider, source | 0 <= i < j < |cs|
          && IsConflict(cs[i], s, intervals, breakMinutes, provider, source)
          && IsConflict(cs[j], s, intervals, breakMinutes, provider, source) :: cs[i].kind != cs[j].kind)
  }

  lemma OverlapConflictIs(
    s: CheckedSession, intervals: seq<Busy>, breakMinutes: int, groups: Groups, i: nat)
    requires ValidIntervals(intervals) && IsGrouping(groups, Overlapping(s.span, intervals)) && i < |groups|
    ensures IsConflict(OverlapConflicts(s, groups)[i], s, intervals, breakMinutes, groups[i].0.0, groups[i].0.1)
  {
    hide Overlapping, Filter, SumBy, OverlapTicks, HasKey;
    var key := groups[i].0;
    GroupIsFilter(s.span, intervals, breakMinutes, key);
    TicksAreCommon(s.span, groups[i].1);
    MinutesRoundUp(OverlapTicks(s.span, groups[i].1));
  }

  lemma BreakConflictIs(
    s: CheckedSession, intervals: seq<Busy>, breakMinutes: int, groups: Groups, i: nat)
    requires ValidIntervals(intervals) && IsGrouping(groups, Nearby(s.span, intervals, breakMinutes)) && i < |groups|
    ensures IsConflict(BreakConflicts(s, groups)[i], s, intervals, breakMinutes, groups[i].0.0, groups[i].0.1)
  {
    hide Nearby, Filter, SumBy, HasKey;
    GroupIsFilter(s.span, intervals, breakMinutes, groups[i].0);
  }

  lemma KeyOfGroup(groups: Groups, matching: seq<Busy>, b: Busy) returns (i: nat)
    requires IsGrouping(groups, matching) && b in matching
    ensures i < |groups| && groups[i].0 == (b.provider, b.source)
  {
    i :| 0 <= i < |groups| && Keys(groups)[i] == b.Key();
  }

  /** Of two conflicts from one list of groups the sources differ. */
  lemma SourcesDiffer(
    cs: seq<Conflict>, groups: Groups, s: CheckedSession, intervals: seq<Busy>, breakMinutes: int,
    i: nat, j: nat, provider: string, source: Source)
    requires i < j < |groups| == |cs| && groups[i].0 != groups[j].0
    requires IsConflict(cs[i], s, intervals, breakMinutes, groups[i].0.0, groups[i].0.1)
    requires IsConflict(cs[j], s, intervals, breakMinutes, groups[j].0.0, groups[j].0.1)
    ensures !(IsConflict(cs[i], s, intervals, breakMinutes, provider, source)
              && IsConflict(cs[j], s, intervals, breakMinutes, provider, source))
  {
    hide IsConflict;
    if IsConflict(cs[i], s, intervals, breakMinutes, provider, source)
       && IsConflict(cs[j], s, intervals, breakMinutes, provider, source)
    {
      OneSource(cs[i], s, intervals, breakMinutes, provider, source, groups[i].0.0, groups[i].0.1);
      OneSource(cs[j], s, intervals, breakMinutes, provider, source, groups[j].0.0, groups[j].0.1);
    }
  }

  lemma OneSource(
    c: Conflict, s: CheckedSession, intervals: seq<Busy>, breakMinutes: int,
    provider: string, source: Source, provider': string, source': Source)
    requires IsConflict(c, s, intervals, breakMinutes, provider, source)
    requires IsConflict(c, s, intervals, breakMinutes, provider', source')
    ensures provider == provider' && source == source'
  {
    hide Filter;
    assert c.matching[0] in c.matching;
  }

  lemma MatchesGiveCause(s: TimeInterval, intervals: seq<Busy>, breakMinutes: int)
    requires ValidIntervals(intervals)
    ensures forall b :: b in Overlapping(s, intervals) <==> b in intervals && Disturbs(s, b)
    ensures forall b :: b in Nearby(s, intervals, breakMinutes) <==> b in intervals && Crowds(s, b, breakMinutes)
  {
    hide Overlapping, Nearby, Disturbs, Crowds;
    MatchesAreFilters(s, intervals, breakMinutes);
    forall b: Busy ensures DisturbsTest(s)(b) <==> Disturbs(s, b) {
    }
    forall b: Busy ensures CrowdsTest(s, breakMinutes)(b) <==> Crowds(s, b, breakMinutes) {
    }
  }

  lemma KindsOf(s: CheckedSession, overlaps: Groups, near: Groups)
    ensures |OverlapConflicts(s, overlaps)| == |overlaps| && |BreakConflicts(s, near)| == |near|
    ensures forall i | 0 <= i < |overlaps| :: OverlapConflicts(s, overlaps)[i].kind == DirectOverlap
    ensures forall i | 0 <= i < |near| :: BreakConflicts(s, near)[i].kind == BreakViolation
  {
  }

  lemma SessionConflictsAre(s: CheckedSession, intervals: seq<Busy>, breakMinutes: int)
    requires ValidIntervals(intervals)
    ensures AreConflicts(SessionConflicts(s, intervals, breakMinutes), s, intervals, breakMinutes)
  {
    hide IsConflict, IsGrouping, Overlapping, Nearby, GroupAll, OverlapConflicts, BreakConflicts, Disturbs, Crowds;
    var overlapping, nearby := Overlapping(s.span, intervals), Nearby(s.span, intervals, breakMinutes);
    var overlaps, near := GroupAll(overlapping), GroupAll(nearby);
    GroupsAreExact(overlapping);
    GroupsAreExact(nearby);
    MatchesGiveCause(s.span, intervals, breakMinutes);
    KindsOf(s, overlaps, near);
    var first, second := OverlapConflicts(s, overlaps), BreakConflicts(s, near);
    var cs := first + second;
    forall i: nat | i < |overlaps| ensures
      IsConflict(first[i], s, intervals, breakMinutes, overlaps[i].0.0, overlaps[i].0.1)
    {
      OverlapConflictIs(s, intervals, breakMinutes, overlaps, i);
    }
    forall i: nat | i < |near| ensures
      IsConflict(second[i], s, intervals, breakMinutes, near[i].0.0, near[i].0.1)
    {
      BreakConflictIs(s, intervals, breakMinutes, near, i);
    }
    forall c | c in cs ensures WithSome(c, s, intervals, breakMinutes) {
      if c in first {
        var i :| 0 <= i < |first| && first[i] == c;
      } else {
        var i :| 0 <= i < |second| && second[i] == c;
      }
    }
    forall b | b in intervals && Disturbs(s.span, b)
      ensures Listed(cs, DirectOverlap, s, intervals, breakMinutes, b.provider, b.source)
    {
      var i := KeyOfGroup(overlaps, overlapping, b);
      assert first[i] in cs;
    }
    forall b | b in intervals && Crowds(s.span, b, breakMinutes)
      ensures Listed(cs, BreakViolation, s, intervals, breakMinutes, b.provider, b.source)
    {
      var i := KeyOfGroup(near, nearby, b);
      assert second[i] in cs;
    }
    forall i, j, provider, source | 0 <= i < j < |cs|
        && IsConflict(cs[i], s, intervals, breakMinutes, provider, source)
        && IsConflict(cs[j], s, intervals, breakMinutes, provider, source)
      ensures cs[i].kind != cs[j].kind
    {
      if j < |first| {
        KeysDiffer(overlaps, overlapping, i, j);
        SourcesDiffer(first, overlaps, s, intervals, breakMinutes, i, j, provider, source);
      } else if i >= |first| {
        KeysDiffer(near, nearby, i - |first|, j - |first|);
        SourcesDiffer(second, near, s, intervals, breakMinutes, i - |first|, j - |first|, provider, source);
      }
    }
  }

  lemma KeysDiffer(groups: Groups, matching: seq<Busy>, i: nat, j: nat)
    requires IsGrouping(groups, matching) && i < j < |groups|
    ensures groups[i].0 != groups[j].0
  {
  }

  function Joined(parts: seq<seq<Conflict>>): seq<Conflict> {
    if parts == [] then [] else Joined(parts[..|parts| - 1]) + parts[|parts| - 1]
  }

  /** A list of conflicts for each session, in the order of the sessions. */
  ghost predicate AreAllConflicts(
    parts: seq<seq<Conflict>>, ordered: seq<CheckedSession>, intervals: seq<Busy>, breakMinutes: int)
  {
    && |parts| == |ordered|
    && forall k :: 0 <= k < |parts| ==> AreConflicts(parts[k], ordered[k], intervals, breakMinutes)
  }

  lemma {:induction false} AllConflictsAre(ordered: seq<CheckedSession>, intervals: seq<Busy>, breakMinutes: int)
    returns (parts: seq<seq<Conflict>>)
    requires ValidIntervals(intervals)
    ensures AllConflicts(ordered, intervals, breakMinutes) == Joined(parts)
    ensures AreAllConflicts(parts, ordered, intervals, breakMinutes)
  {
    hide SessionConflicts, AreConflicts;
    if ordered == [] {
      parts := [];
    } else {
      var n := |ordered| - 1;
      var init := AllConflictsAre(ordered[..n], intervals, breakMinutes);
      var last := SessionConflicts(ordered[n], intervals, breakMinutes);
      SessionConflictsAre(ordered[n], intervals, breakMinutes);
      parts := init + [last];
      assert parts[..n] == init;
    }
  }

  predicate InOrder(sessions: seq<CheckedSession>) {
    forall i, j :: 0 <= i < j < |sessions| ==> sessions[i].order <= sessions[j].order
  }

  /** The conflicts of a plan are those of its sessions, one session after the other in their order. */
  lemma DetectedConflictsAre(sessions: seq<CheckedSession>, intervals: seq<Busy>, breakMinutes: int)
    returns (ordered: seq<CheckedSession>, parts: seq<seq<Conflict>>)
    requires ValidIntervals(intervals)
    ensures multiset(ordered) == multiset(sessions) && InOrder(ordered)
    ensures DetectConflicts(sessions, intervals, breakMinutes) == Joined(parts)
    ensures AreAllConflicts(parts, ordered, intervals, breakMinutes)
  {
    hide AllConflicts, AreAllConflicts, Joined, Sort;
    ordered := Sort(sessions, SessionLe);
    assert TotalPreorder(SessionLe);
    SortIsSorted(sessions, SessionLe);
    forall i, j | 0 <= i < j < |ordered| ensures ordered[i].order <= ordered[j].order {
      assert SessionLe(ordered[i], ordered[j]);
    }
    parts := AllConflictsAre(ordered, intervals, breakMinutes);
  }
}
