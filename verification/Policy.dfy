/**
  app/domain/external_calendar_policy.py and app/calendar_sync/deadline_policy.py: what an
  external calendar change means for a plan.
 */
module Policy {
  import opened Prelude
  import opened Sorting
  import opened Orders
  import opened Intervals

  /** An event as observed; its constructor refuses a present event without a positive interval. */
  datatype EventStateRaw = EventState(
    exists_: bool,
    cancelled: bool,
    start: Option<int>,
    end: Option<int>,
    calendarId: string)
  {
    predicate Present() {
      exists_ && !cancelled
    }

    predicate Valid() {
      Present() ==> start.Some? && end.Some? && start.value < end.value
    }
  }

  type EventState = s: EventStateRaw | s.Valid() witness EventState(false, false, None, None, "")

  /** The change types, after stripping and lower-casing; any other text is OtherType. */
  datatype ChangeType = CreatedType | UpdatedType | MovedType | DeletedType | CancelledType | OtherType

  datatype ChangeInput = ChangeInput(
    changeType: ChangeType,
    previous: Option<EventState>,
    current: Option<EventState>)

  /** A session of the plan, with its own interval and the one last observed in the calendar. */
  datatype PolicySession = PolicySession(
    id: string,
    order: int,
    scheduled: TimeInterval,
    mapped: bool,
    missing: bool,
    observed: Option<TimeInterval>)
  {
    function Effective(): TimeInterval {
      if observed.Some? then observed.value else scheduled
    }
  }

  datatype Aggregate = Aggregate(
    changedId: string,
    deadline: Option<int>,
    window: TimeInterval,
    sessions: seq<PolicySession>)

  datatype ConflictCode = OutsidePlanningWindow | SessionOverlap | ExternalEventMissing

  datatype Decision =
    | NoAction
    | UpdateSession(id: string, previous: Span, new_: Span)
    | ExtendDeadline(newDeadline: int)
    | MarkMissing(id: string, wasCancelled: bool)
    | RecordConflict(code: ConflictCode, ids: seq<string>)
    | Unsupported

  /** `max()` of nothing raises. */
  datatype PolicyError = NothingProjected

  // ----- projection -----

  /** A session with the interval it will have after the move. */
  datatype Projected = Projected(session: PolicySession, span: TimeInterval)

  /** By start, end, order and the id's text. */
  predicate ProjectedLe(a: Projected, b: Projected) {
    if a.span != b.span then SpanLe(a.span, b.span)
    else if a.session.order != b.session.order then a.session.order < b.session.order
    else StringLe(a.session.id, b.session.id)
  }

  predicate Projects(s: PolicySession) {
    s.mapped && !s.missing
  }

  function ProjectOne(s: PolicySession, changedId: string, moved: TimeInterval): Projected {
    Projected(s, if s.id == changedId then moved else s.Effective())
  }

  function ProjectAll(sessions: seq<PolicySession>, changedId: string, moved: TimeInterval): seq<Projected> {
    if sessions == [] then []
    else
      var last := sessions[|sessions| - 1];
      ProjectAll(sessions[..|sessions| - 1], changedId, moved)
      + (if Projects(last) then [ProjectOne(last, changedId, moved)] else [])
  }

  function ProjectedIntervals(aggregate: Aggregate, moved: TimeInterval): seq<Projected> {
    Sort(ProjectAll(aggregate.sessions, aggregate.changedId, moved), ProjectedLe)
  }

  method ProjectIntervals(aggregate: Aggregate, moved: TimeInterval) returns (r: seq<Projected>)
    ensures r == ProjectedIntervals(aggregate, moved)
  {
    var projected: seq<Projected> := [];
    for i := 0 to |aggregate.sessions|
      invariant projected == ProjectAll(aggregate.sessions[..i], aggregate.changedId, moved)
    {
      var session := aggregate.sessions[i];
      assert aggregate.sessions[..i + 1][..i] == aggregate.sessions[..i];
      if !session.mapped || session.missing {
        continue;
      }
      var span := if session.id == aggregate.changedId then moved else session.Effective();
      projected := projected + [Projected(session, span)];
    }
    assert aggregate.sessions[..|aggregate.sessions|] == aggregate.sessions;
    return Sort(projected, ProjectedLe);
  }

  // ----- conflicts -----

  /** A conflict for each neighbour that starts before the one in front of it ends. */
  function NeighbourConflicts(projected: seq<Projected>): seq<Decision> {
    if |projected| < 2 then []
    else
      var n := |projected|;
      NeighbourConflicts(projected[..n - 1])
      + (if projected[n - 1].span.start < projected[n - 2].span.end then
           [RecordConflict(SessionOverlap, [projected[n - 2].session.id, projected[n - 1].session.id])]
         else [])
  }

  function MoveConflicts(aggregate: Aggregate, moved: TimeInterval): seq<Decision> {
    (if moved.start < aggregate.window.start || moved.end > aggregate.window.end then
       [RecordConflict(OutsidePlanningWindow, [aggregate.changedId])]
     else [])
    + NeighbourConflicts(ProjectedIntervals(aggregate, moved))
  }

  method FindMoveConflicts(aggregate: Aggregate, moved: TimeInterval) returns (conflicts: seq<Decision>)
    ensures conflicts == MoveConflicts(aggregate, moved)
    ensures ConflictsFit(conflicts, aggregate, moved)
  {
    MoveConflictsFit(aggregate, moved);
    conflicts := [];
    if moved.start < aggregate.window.start || moved.end > aggregate.window.end {
      conflicts := [RecordConflict(OutsidePlanningWindow, [aggregate.changedId])];
    }
    var projected := ProjectIntervals(aggregate, moved);
    conflicts := AddNeighbourConflicts(conflicts, projected);
  }

  /** The loop over the pairs of neighbours. */
  method AddNeighbourConflicts(first: seq<Decision>, projected: seq<Projected>) returns (conflicts: seq<Decision>)
    ensures conflicts == first + NeighbourConflicts(projected)
  {
    conflicts := first;
    for i := 0 to |projected|
      invariant conflicts == first + NeighbourConflicts(projected[..i])
    {
      assert projected[..i + 1][..i] == projected[..i];
      if i > 0 && projected[i].span.start < projected[i - 1].span.end {
        conflicts := conflicts
          + [RecordConflict(SessionOverlap, [projected[i - 1].session.id, projected[i].session.id])];
      }
    }
    assert projected[..|projected|] == projected;
  }

  /** The latest end of the projected sessions. */
  function LatestEnd(projected: seq<Projected>): int
    requires projected != []
  {
    if |projected| == 1 then projected[0].span.end
    else Max(LatestEnd(projected[..|projected| - 1]), projected[|projected| - 1].span.end)
  }

  // ----- the decision -----

  function MovedInterval(state: EventState): Option<TimeInterval> {
    if state.Present() then Some(Span(state.start.value, state.end.value)) else None
  }

  function MoveDecisions(aggregate: Aggregate, previous: Span, moved: TimeInterval)
    : Result<seq<Decision>, PolicyError>
  {
    var projected := ProjectedIntervals(aggregate, moved);
    if projected == [] then Err(NothingProjected)
    else
      var latest := LatestEnd(projected);
      Ok([UpdateSession(aggregate.changedId, previous, moved)]
         + (if aggregate.deadline.None? || latest > aggregate.deadline.value then [ExtendDeadline(latest)] else [])
         + MoveConflicts(aggregate, moved))
  }

  function Evaluate(aggregate: Aggregate, change: ChangeInput): Result<seq<Decision>, PolicyError> {
    if change.previous == change.current then Ok([NoAction])
    else if change.changeType == DeletedType || change.changeType == CancelledType
            || change.current.None? || !change.current.value.Present() then
      var wasCancelled := change.current.Some? && change.current.value.cancelled;
      Ok([MarkMissing(aggregate.changedId, wasCancelled),
          RecordConflict(ExternalEventMissing, [aggregate.changedId])])
    else if change.changeType != MovedType || change.previous.None?
            || change.previous.value.start.None? || change.previous.value.end.None?
            || (change.previous.value.start == change.current.value.start &&
                change.previous.value.end == change.current.value.end) then
      Ok([Unsupported])
    else
      MoveDecisions(
        aggregate,
        Span(change.previous.value.start.value, change.previous.value.end.value),
        MovedInterval(change.current.value).value)
  }

  method EvaluatePolicy(aggregate: Aggregate, change: ChangeInput) returns (r: Result<seq<Decision>, PolicyError>)
    ensures r == Evaluate(aggregate, change)
  {
    if change.previous == change.current {
      return Ok([NoAction]);
    }
    if change.changeType == DeletedType || change.changeType == CancelledType
       || change.current.None? || !change.current.value.Present() {
      var wasCancelled := change.current.Some? && change.current.value.cancelled;
      return Ok([MarkMissing(aggregate.changedId, wasCancelled),
                 RecordConflict(ExternalEventMissing, [aggregate.changedId])]);
    }
    var current := change.current.value;
    if change.changeType != MovedType || change.previous.None?
       || change.previous.value.start.None? || change.previous.value.end.None?
       || (change.previous.value.start == current.start && change.previous.value.end == current.end) {
      return Ok([Unsupported]);
    }
    var previous := change.previous.value;
    var moved: TimeInterval := Span(current.start.value, current.end.value);
    var decisions := [UpdateSession(aggregate.changedId, Span(previous.start.value, previous.end.value), moved)];
    var projected := ProjectIntervals(aggregate, moved);
    if projected == [] {
      return Err(NothingProjected);
    }
    var latestEnd := LatestEnd(projected);
    if aggregate.deadline.None? || latestEnd > aggregate.deadline.value {
      decisions := decisions + [ExtendDeadline(latestEnd)];
    }
    var conflicts := FindMoveConflicts(aggregate, moved);
    ghost var first := [UpdateSession(aggregate.changedId, Span(previous.start.value, previous.end.value), moved)];
    assert first + [] == first;
    return Ok(decisions + conflicts);
  }

  // ----- the deadline policy -----

  /** `deadline_after_external_move`: the latest of the deadline and the ends; nothing when there is none. */
  function DeadlineAfterMove(deadline: Option<int>, ends: seq<int>): Option<int> {
    if ends == [] then deadline
    else
      var before := DeadlineAfterMove(deadline, ends[..|ends| - 1]);
      var end := ends[|ends| - 1];
      Some(if before.None? then end else Max(before.value, end))
  }

  /** The result is one of the values, and none of them is later. */
  lemma {:induction false} DeadlineIsLatest(deadline: Option<int>, ends: seq<int>)
    ensures var r := DeadlineAfterMove(deadline, ends);
      && (r.None? <==> deadline.None? && ends == [])
      && (r.Some? ==> r == deadline || r.value in ends)
      && (deadline.Some? ==> r.Some? && deadline.value <= r.value)
      && (forall e | e in ends :: r.Some? && e <= r.value)
  {
    if ends != [] {
      var init, last := ends[..|ends| - 1], ends[|ends| - 1];
      DeadlineIsLatest(deadline, init);
      assert last in ends && forall e | e in init :: e in ends;
      forall e | e in ends ensures e == last || e in init {
      }
    }
  }

  function Ends(projected: seq<Projected>): seq<int> {
    seq(|projected|, i requires 0 <= i < |projected| => projected[i].span.end)
  }

  lemma {:induction false} LatestEndIsMaximum(projected: seq<Projected>)
    requires projected != []
    ensures forall e | e in Ends(projected) :: e <= LatestEnd(projected)
    ensures LatestEnd(projected) in Ends(projected)
  {
    var n := |projected|;
    assert Ends(projected) == Ends(projected[..n - 1]) + [projected[n - 1].span.end];
    if n > 1 {
      LatestEndIsMaximum(projected[..n - 1]);
    }
  }

  /** The deadline a decision list leaves the task with. */
  function DeadlineAfter(deadline: Option<int>, decisions: seq<Decision>): Option<int> {
    if decisions == [] then deadline
    else
      var before := DeadlineAfter(deadline, decisions[..|decisions| - 1]);
      match decisions[|decisions| - 1]
      case ExtendDeadline(d) => if before.None? || d > before.value then Some(d) else before
      case _ => before
  }

  lemma {:induction false} ConflictsKeepDeadline(
    deadline: Option<int>, decisions: seq<Decision>, conflicts: seq<Decision>)
    requires forall d | d in conflicts :: d.RecordConflict?
    ensures DeadlineAfter(deadline, decisions + conflicts) == DeadlineAfter(deadline, decisions)
  {
    if conflicts == [] {
      assert decisions + conflicts == decisions;
    } else {
      var all := decisions + conflicts;
      assert all[..|all| - 1] == decisions + conflicts[..|conflicts| - 1];
      assert all[|all| - 1] == conflicts[|conflicts| - 1] && conflicts[|conflicts| - 1] in conflicts;
      assert forall d | d in conflicts[..|conflicts| - 1] :: d in conflicts;
      ConflictsKeepDeadline(deadline, decisions, conflicts[..|conflicts| - 1]);
    }
  }

  lemma {:induction false} ConflictsOnly(projected: seq<Projected>)
    ensures forall d | d in NeighbourConflicts(projected) :: d.RecordConflict? && d.code == SessionOverlap
  {
    if |projected| >= 2 {
      ConflictsOnly(projected[..|projected| - 1]);
    }
  }

  /** The decisions of a move extend the deadline exactly as the deadline policy says. */
  lemma MoveFollowsDeadlinePolicy(aggregate: Aggregate, previous: Span, moved: TimeInterval)
    requires MoveDecisions(aggregate, previous, moved).Ok?
    ensures DeadlineAfter(aggregate.deadline, MoveDecisions(aggregate, previous, moved).value) ==
            DeadlineAfterMove(aggregate.deadline, Ends(ProjectedIntervals(aggregate, moved)))
  {
    hide ProjectedIntervals, NeighbourConflicts;
    var projected := ProjectedIntervals(aggregate, moved);
    var latest := LatestEnd(projected);
    var first := [UpdateSession(aggregate.changedId, previous, moved)];
    var extension :=
      if aggregate.deadline.None? || latest > aggregate.deadline.value then [ExtendDeadline(latest)] else [];
    ConflictsOnly(projected);
    ConflictsKeepDeadline(aggregate.deadline, first + extension, MoveConflicts(aggregate, moved));
    assert first[..0] == [];
    assert DeadlineAfter(aggregate.deadline, first) == aggregate.deadline;
    assert first + [ExtendDeadline(latest)] == [first[0], ExtendDeadline(latest)];
    assert (first + [ExtendDeadline(latest)])[..1] == first;
    assert first + [] == first;
    LatestEndIsMaximum(projected);
    DeadlineIsLatest(aggregate.deadline, Ends(projected));
  }

  // ----- overlaps -----

  ghost predicate OverlapReported(decisions: seq<Decision>) {
    exists d | d in decisions :: d.RecordConflict? && d.code == SessionOverlap
  }

  lemma ProjectedOrder()
    ensures TotalPreorder(ProjectedLe)
  {
    hide StringLe;
    forall a: Projected, b: Projected ensures ProjectedLe(a, b) || ProjectedLe(b, a) {
      StringOrder(a.session.id, b.session.id, a.session.id);
    }
    forall a: Projected, b: Projected, c: Projected | ProjectedLe(a, b) && ProjectedLe(b, c)
      ensures ProjectedLe(a, c)
    {
      StringOrder(a.session.id, b.session.id, c.session.id);
    }
  }

  /** Neighbours that do not overlap leave the whole list in sequence. */
  lemma {:induction false} InSequence(projected: seq<Projected>, i: nat, j: nat)
    requires i < j < |projected|
    requires forall k :: 0 < k < |projected| ==> projected[k - 1].span.end <= projected[k].span.start
    ensures projected[i].span.end <= projected[j].span.start
  {
    if i < j - 1 {
      InSequence(projected, i, j - 1);
    }
  }

  lemma {:induction false} NeighboursReport(projected: seq<Projected>)
    ensures OverlapReported(NeighbourConflicts(projected)) <==>
            exists k :: 0 < k < |projected| && projected[k].span.start < projected[k - 1].span.end
  {
    if |projected| >= 2 {
      var n := |projected|;
      var init := projected[..n - 1];
      NeighboursReport(init);
      var all := NeighbourConflicts(projected);
      if OverlapReported(NeighbourConflicts(init)) {
        var d :| d in NeighbourConflicts(init) && d.RecordConflict? && d.code == SessionOverlap;
        assert d in all;
        var k :| 0 < k < |init| && init[k].span.start < init[k - 1].span.end;
        assert projected[k].span.start < projected[k - 1].span.end;
      }
      if projected[n - 1].span.start < projected[n - 2].span.end {
        assert all[|all| - 1].RecordConflict? && all[|all| - 1] in all;
      }
      if exists k :: 0 < k < n - 1 && projected[k].span.start < projected[k - 1].span.end {
        var k :| 0 < k < n - 1 && projected[k].span.start < projected[k - 1].span.end;
        assert init[k].span.start < init[k - 1].span.end;
      }
    }
  }

  /**
    A move reports an overlap exactly when some two projected sessions overlap, though only
    neighbours are compared.
   */
  lemma OverlapReportIsExact(aggregate: Aggregate, previous: Span, moved: TimeInterval)
    requires MoveDecisions(aggregate, previous, moved).Ok?
    ensures OverlapReported(MoveDecisions(aggregate, previous, moved).value) <==>
            var projected := ProjectedIntervals(aggregate, moved);
            exists i, j :: 0 <= i < j < |projected| && Overlaps(projected[i].span, projected[j].span)
  {
    hide ProjectAll, NeighbourConflicts, LatestEnd, MoveDecisions, OverlapReported, ProjectedIntervals;
    var projected := ProjectedIntervals(aggregate, moved);
    ProjectedSorted(aggregate, moved);
    NeighboursReport(projected);
    OnlyNeighboursReport(aggregate, previous, moved);
    if exists k :: 0 < k < |projected| && projected[k].span.start < projected[k - 1].span.end {
      var k :| 0 < k < |projected| && projected[k].span.start < projected[k - 1].span.end;
      assert ProjectedLe(projected[k - 1], projected[k]);
      assert Overlaps(projected[k - 1].span, projected[k].span);
    } else {
      forall i, j | 0 <= i < j < |projected| ensures !Overlaps(projected[i].span, projected[j].span) {
        InSequence(projected, i, j);
      }
    }
  }

  lemma ProjectedSorted(aggregate: Aggregate, moved: TimeInterval)
    ensures SortedBy(ProjectedIntervals(aggregate, moved), ProjectedLe)
  {
    ProjectedOrder();
    SortIsSorted(ProjectAll(aggregate.sessions, aggregate.changedId, moved), ProjectedLe);
  }

  lemma OnlyNeighboursReport(aggregate: Aggregate, previous: Span, moved: TimeInterval)
    requires MoveDecisions(aggregate, previous, moved).Ok?
    ensures OverlapReported(MoveDecisions(aggregate, previous, moved).value) <==>
            OverlapReported(NeighbourConflicts(ProjectedIntervals(aggregate, moved)))
  {
    hide ProjectedIntervals, NeighbourConflicts, LatestEnd;
    var all := MoveDecisions(aggregate, previous, moved).value;
    var conflicts := NeighbourConflicts(ProjectedIntervals(aggregate, moved));
    if OverlapReported(conflicts) {
      var d :| d in conflicts && d.RecordConflict? && d.code == SessionOverlap;
      assert d in all;
    }
  }

  // ----- what the conflicts say -----

  /** Some instant of the interval is outside the window. */
  ghost predicate LeavesWindow(span: TimeInterval, window: TimeInterval) {
    exists t :: Holds(span, t) && !Holds(window, t)
  }

  lemma LeavesWindowIff(span: TimeInterval, window: TimeInterval)
    ensures LeavesWindow(span, window) <==> span.start < window.start || span.end > window.end
  {
    if span.start < window.start {
      assert Holds(span, span.start) && !Holds(window, span.start);
    }
    if span.end > window.end {
      var t := if span.start >= window.end then span.start else window.end;
      assert Holds(span, t) && !Holds(window, t);
    }
  }

  /** Sessions k - 1 and k in order of time overlap. */
  predicate Clash(projected: seq<Projected>, k: int) {
    0 < k < |projected| && Overlaps(projected[k - 1].span, projected[k].span)
  }

  predicate IsClash(d: Decision, projected: seq<Projected>, k: int) {
    Clash(projected, k) &&
    d == RecordConflict(SessionOverlap, [projected[k - 1].session.id, projected[k].session.id])
  }

  /** One decision for each clash of neighbours, in order; ks are where. */
  ghost predicate ClashesAt(ds: seq<Decision>, projected: seq<Projected>, ks: seq<int>) {
    && |ks| == |ds|
    && (forall j :: 0 <= j < |ks| ==> IsClash(ds[j], projected, ks[j]))
    && (forall i, j :: 0 <= i < j < |ks| ==> ks[i] < ks[j])
    && (forall k | Clash(projected, k) :: k in ks)
  }

  predicate InTime(projected: seq<Projected>) {
    forall i, j :: 0 <= i < j < |projected| ==> projected[i].span.start <= projected[j].span.start
  }

  /** Clashes of all but the last are those of the whole but for the last pair. */
  lemma InitClashes(projected: seq<Projected>, k: int)
    requires projected != []
    ensures Clash(projected[..|projected| - 1], k) <==> Clash(projected, k) && k < |projected| - 1
    ensures forall d | IsClash(d, projected[..|projected| - 1], k) :: IsClash(d, projected, k)
  {
  }

  lemma ClashesExtend(ds: seq<Decision>, projected: seq<Projected>, ks: seq<int>, last: seq<Decision>)
    requires projected != [] && ClashesAt(ds, projected[..|projected| - 1], ks)
    requires var n := |projected| - 1;
      if Clash(projected, n) then |last| == 1 && IsClash(last[0], projected, n) else last == []
    ensures ClashesAt(ds + last, projected, if last == [] then ks else ks + [|projected| - 1])
  {
    hide Clash, IsClash;
    var n := |projected| - 1;
    var all := if last == [] then ks else ks + [n];
    forall j | 0 <= j < |ks| ensures IsClash(ds[j], projected, ks[j]) && ks[j] < n {
      InitClashes(projected, ks[j]);
      ClashInRange(ds[j], projected[..n], ks[j]);
    }
    forall k | Clash(projected, k) ensures k in all {
      InitClashes(projected, k);
      ClashRange(projected, k);
    }
  }

  lemma ClashInRange(d: Decision, projected: seq<Projected>, k: int)
    requires IsClash(d, projected, k)
    ensures Clash(projected, k) && 0 < k < |projected|
  {
  }

  lemma ClashRange(projected: seq<Projected>, k: int)
    requires Clash(projected, k)
    ensures 0 < k < |projected|
  {
  }

  lemma {:induction false} NeighboursClash(projected: seq<Projected>) returns (ks: seq<int>)
    requires InTime(projected)
    ensures ClashesAt(NeighbourConflicts(projected), projected, ks)
  {
    var n := |projected| - 1;
    if n < 1 {
      ks := [];
    } else {
      var init := projected[..n];
      ks := NeighboursClash(init);
      var last := if projected[n].span.start < projected[n - 1].span.end
        then [RecordConflict(SessionOverlap, [projected[n - 1].session.id, projected[n].session.id])] else [];
      hide ClashesAt, NeighbourConflicts;
      NeighboursNext(projected, last);
      ClashesExtend(NeighbourConflicts(init), projected, ks, last);
      ks := if last == [] then ks else ks + [n];
    }
  }

  lemma NeighboursNext(projected: seq<Projected>, last: seq<Decision>)
    requires |projected| >= 2
    requires var n := |projected| - 1;
      last == if projected[n].span.start < projected[n - 1].span.end
        then [RecordConflict(SessionOverlap, [projected[n - 1].session.id, projected[n].session.id])] else []
    ensures NeighbourConflicts(projected) == NeighbourConflicts(projected[..|projected| - 1]) + last
  {
  }

  /** The window decision when the interval leaves the window, then one for each clash of neighbours. */
  ghost predicate ConflictsFit(conflicts: seq<Decision>, aggregate: Aggregate, moved: TimeInterval) {
    exists clashes, ks ::
      && conflicts == (if LeavesWindow(moved, aggregate.window)
                       then [RecordConflict(OutsidePlanningWindow, [aggregate.changedId])] else []) + clashes
      && ClashesAt(clashes, ProjectedIntervals(aggregate, moved), ks)
  }

  lemma ProjectedInTime(aggregate: Aggregate, moved: TimeInterval)
    ensures InTime(ProjectedIntervals(aggregate, moved))
  {
    hide ProjectedIntervals;
    ProjectedSorted(aggregate, moved);
    var projected := ProjectedIntervals(aggregate, moved);
    forall i, j | 0 <= i < j < |projected| ensures projected[i].span.start <= projected[j].span.start {
      assert ProjectedLe(projected[i], projected[j]);
    }
  }

  lemma MoveConflictsFit(aggregate: Aggregate, moved: TimeInterval)
    ensures ConflictsFit(MoveConflicts(aggregate, moved), aggregate, moved)
  {
    hide ProjectedIntervals, NeighbourConflicts, ClashesAt, LeavesWindow;
    LeavesWindowIff(moved, aggregate.window);
    ProjectedInTime(aggregate, moved);
    var projected := ProjectedIntervals(aggregate, moved);
    var ks := NeighboursClash(projected);
    assert ClashesAt(NeighbourConflicts(projected), projected, ks);
  }
}
