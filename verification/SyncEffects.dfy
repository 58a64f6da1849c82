/**
  What processing a change records: the session, the mapping, the deadline with its history,
  the findings and the actions; and that the history is the chain of all deadlines taken.
 */
module SyncEffects {
  import opened Prelude
  import opened Sorting
  import opened Intervals
  import opened Policy
  import opened Sync
  import opened SyncConvergence
  import opened SyncMissing
  import SyncOrder

  // ----- what a change asks for -----

  /** There is no event any more, and that is a difference the policy sees. */
  predicate Gone(c: Change) {
    !c.new_.Present() && !SameEvent(c.old_, c.new_)
  }

  /** Alike in calendar, presence and instants. */
  predicate SameEvent(a: Snapshot, b: Snapshot) {
    && a.calendarId == b.calendarId && a.exists_ == b.exists_ && a.cancelled == b.cancelled
    && Instant(a.start) == Instant(b.start) && Instant(a.end) == Instant(b.end)
  }

  /** The decisions for a logged change. */
  lemma DecisionsAre(s: Store, i: nat, info: PlanInfo)
    requires i < |s.changes| && Logged(s.changes[i]) && Decide(s, i, info).Ok?
    ensures var c := s.changes[i];
      var ds := Decide(s, i, info).value;
      if IsMove(c) then
        && MoveDecisions(AggregateOf(s, c.mapping, info), Shown(c.old_), Shown(c.new_)) == Ok(ds)
      else if Gone(c) then
        ds == [MarkMissing(c.mapping, c.new_.cancelled), RecordConflict(ExternalEventMissing, [c.mapping])]
      else ds == [if SameEvent(c.old_, c.new_) then NoAction else Unsupported]
  {
    hide MoveDecisions, AggregateOf, FirstError;
    AggregateChanged(s, s.changes[i].mapping, info);
  }

  // ----- applying the decisions -----

  /** The findings of a list of conflicts. */
  function FindingsOf(conflicts: seq<Decision>, change: nat): seq<Finding>
    requires forall d | d in conflicts :: d.RecordConflict?
  {
    seq(|conflicts|, k requires 0 <= k < |conflicts| => Finding(change, conflicts[k].code, conflicts[k].ids))
  }

  function Times(n: nat, action: Action): seq<Action> {
    seq(n, _ => action)
  }

  /** Conflicts add their findings and as many actions, and nothing else. */
  lemma {:induction false} ConflictsApplied(e: Effects, conflicts: seq<Decision>, change: nat)
    requires forall d | d in conflicts :: d.RecordConflict?
    ensures ApplyAll(e, conflicts, change) ==
            e.(findings := e.findings + FindingsOf(conflicts, change),
               actions := e.actions + Times(|conflicts|, ConflictRecorded))
  {
    if conflicts == [] {
      assert FindingsOf(conflicts, change) == [] && Times(0, ConflictRecorded) == [];
      assert e.findings + [] == e.findings && e.actions + [] == e.actions;
    } else {
      var n := |conflicts| - 1;
      var init, last := conflicts[..n], conflicts[n];
      assert last in conflicts && forall d | d in init :: d in conflicts;
      ConflictsApplied(e, init, change);
      assert FindingsOf(conflicts, change) == FindingsOf(init, change) + [Finding(change, last.code, last.ids)];
      assert Times(n + 1, ConflictRecorded) == Times(n, ConflictRecorded) + [ConflictRecorded];
      AddIsAssociative(e.findings, FindingsOf(init, change), [Finding(change, last.code, last.ids)]);
      AddIsAssociative(e.actions, Times(n, ConflictRecorded), [ConflictRecorded]);
    }
  }

  lemma AddIsAssociative<T>(a: seq<T>, b: seq<T>, c: seq<T>)
    ensures (a + b) + c == a + (b + c)
  {
  }

  // ----- what is recorded -----

  predicate FindsClash(f: Finding, projected: seq<Projected>, k: int, change: nat) {
    Clash(projected, k) &&
    f == Finding(change, SessionOverlap, [projected[k - 1].session.id, projected[k].session.id])
  }

  /** A finding for each pair of neighbours that overlap, in order of time. */
  ghost predicate FindsClashes(findings: seq<Finding>, projected: seq<Projected>, ks: seq<int>, change: nat) {
    && |ks| == |findings|
    && (forall j :: 0 <= j < |ks| ==> FindsClash(findings[j], projected, ks[j], change))
    && (forall i, j :: 0 <= i < j < |ks| ==> ks[i] < ks[j])
    && (forall k | Clash(projected, k) :: k in ks)
  }

  /** The latest of the deadline and the ends of the projected sessions. */
  predicate IsLatest(before: Option<int>, projected: seq<Projected>, after: Option<int>) {
    && after.Some?
    && (after == before || exists p | p in projected :: p.span.end == after.value)
    && (before.Some? ==> before.value <= after.value)
    && (forall p | p in projected :: p.span.end <= after.value)
  }

  /** The history gains the step from one deadline to another, and nothing when there is none. */
  predicate HistoryGains(
    before: seq<DeadlineEntry>, after: seq<DeadlineEntry>, change: nat, old_: Option<int>, new_: Option<int>)
  {
    after == before + (if new_ == old_ || new_.None? then [] else [DeadlineEntry(change, old_, new_.value)])
  }

  /**
    A move: the session at its new interval, in whole minutes; the deadline the latest of it and
    the sessions taken along, with its step in the history; a finding when the session leaves the
    planning window, then one for each pair of neighbours that overlap; an action for each.
   */
  ghost predicate MoveRecorded(
    s: Store, e: Effects, i: nat, info: PlanInfo, projected: seq<Projected>, overlaps: seq<Finding>, ks: seq<int>)
    requires i < |s.changes| && IsMove(s.changes[i]) && s.changes[i].mapping in s.sessions
    requires s.changes[i].mapping in s.mappings
  {
    var m, moved := s.changes[i].mapping, Shown(s.changes[i].new_);
    var outside := LeavesWindow(moved, info.window);
    && e.session.span == moved && e.session.order == s.sessions[m].order
    && e.session.minutes * MINUTE == moved.end - moved.start
    && e.status == s.mappings[m].status
    && IsProjection(projected, s, m, moved, info) && IsLatest(s.deadline, projected, e.deadline)
    && HistoryGains(s.history, e.history, i, s.deadline, e.deadline)
    && FindsClashes(overlaps, projected, ks, i)
    && e.findings == s.findings + (if outside then [Finding(i, OutsidePlanningWindow, [m])] else []) + overlaps
    && e.actions == [SessionUpdated] + (if e.deadline == s.deadline then [] else [DeadlineExtended])
                    + Times(|overlaps| + (if outside then 1 else 0), ConflictRecorded)
  }

  /** The window decision of a move, present exactly when the interval leaves the window. */
  function WindowConflict(aggregate: Aggregate, moved: TimeInterval): seq<Decision> {
    if moved.start < aggregate.window.start || moved.end > aggregate.window.end then
      [RecordConflict(OutsidePlanningWindow, [aggregate.changedId])]
    else []
  }

  lemma MoveParts(aggregate: Aggregate, previous: Span, moved: TimeInterval)
    requires MoveDecisions(aggregate, previous, moved).Ok?
    ensures var projected := ProjectedIntervals(aggregate, moved);
      projected != [] &&
      MoveDecisions(aggregate, previous, moved).value ==
      ([UpdateSession(aggregate.changedId, previous, moved)]
       + (if aggregate.deadline.None? || LatestEnd(projected) > aggregate.deadline.value
          then [ExtendDeadline(LatestEnd(projected))] else []))
      + (WindowConflict(aggregate, moved) + NeighbourConflicts(projected))
  {
    hide ProjectedIntervals, LatestEnd, NeighbourConflicts;
  }

  /** The update, and the extension when there is one. */
  lemma FirstApplied(e: Effects, m: string, previous: Span, moved: TimeInterval, latest: int, change: nat)
    ensures var later := e.deadline.None? || latest > e.deadline.value;
      ApplyAll(e, [UpdateSession(m, previous, moved)] + (if later then [ExtendDeadline(latest)] else []), change) ==
      e.(session := e.session.(span := moved, minutes := moved.DurationMinutes()),
         deadline := if later then Some(latest) else e.deadline,
         history := if later then e.history + [DeadlineEntry(change, e.deadline, latest)] else e.history,
         actions := e.actions + [SessionUpdated] + (if later then [DeadlineExtended] else []))
  {
    var first := [UpdateSession(m, previous, moved)];
    assert first[..0] == [];
    assert ApplyAll(e, first, change) == ApplyDecision(ApplyAll(e, [], change), first[0], change);
    if e.deadline.None? || latest > e.deadline.value {
      assert (first + [ExtendDeadline(latest)])[..1] == first;
    } else {
      assert first + [] == first && e.actions + [SessionUpdated] + [] == e.actions + [SessionUpdated];
    }
  }

  lemma LatestEndIsLatest(before: Option<int>, projected: seq<Projected>)
    requires projected != []
    ensures var latest := LatestEnd(projected);
      IsLatest(before, projected, if before.None? || latest > before.value then Some(latest) else before)
  {
    hide LatestEnd;
    LatestEndIsMaximum(projected);
    forall p | p in projected ensures p.span.end <= LatestEnd(projected) {
      var k :| 0 <= k < |projected| && projected[k] == p;
      assert Ends(projected)[k] == p.span.end && Ends(projected)[k] in Ends(projected);
    }
    var k :| 0 <= k < |projected| && Ends(projected)[k] == LatestEnd(projected);
    assert projected[k] in projected;
  }

  lemma ClashesAreFindings(ds: seq<Decision>, projected: seq<Projected>, ks: seq<int>, change: nat)
    requires ClashesAt(ds, projected, ks)
    ensures forall d | d in ds :: d.RecordConflict?
    ensures FindsClashes(FindingsOf(ds, change), projected, ks, change)
  {
    hide Clash;
    forall d | d in ds ensures d.RecordConflict? {
      var j :| 0 <= j < |ds| && ds[j] == d;
      assert IsClash(ds[j], projected, ks[j]);
    }
  }

  lemma {:induction false} MoveIsRecorded(s: Store, i: nat, info: PlanInfo)
    returns (projected: seq<Projected>, overlaps: seq<Finding>, ks: seq<int>)
    requires i < |s.changes| && Logged(s.changes[i]) && IsMove(s.changes[i]) && Decide(s, i, info).Ok?
    ensures s.changes[i].mapping in s.mappings && s.changes[i].mapping in s.sessions
    ensures MoveRecorded(s, ApplyAll(EffectsOf(s, s.changes[i].mapping), Decide(s, i, info).value, i), i, info,
                         projected, overlaps, ks)
  {
    hide Decide, ApplyAll, LatestEnd, NeighbourConflicts, IsProjection, IsLatest, FindsClashes, ProjectedIntervals,
         ClashesAt, AggregateOf, FindingsOf, MoveDecisions, LeavesWindow, Times;
    DecidedIsMapped(s, i, info);
    var c := s.changes[i];
    var m, moved := c.mapping, Shown(c.new_);
    var aggregate := AggregateOf(s, m, info);
    AggregateChanged(s, m, info);
    AggregateWindow(s, m, info);
    projected := ProjectedIntervals(aggregate, moved);
    DecisionsAre(s, i, info);
    MoveParts(aggregate, Shown(c.old_), moved);
    ProjectionIs(s, m, moved, info);
    ProjectedInTime(aggregate, moved);
    ks := NeighboursClash(projected);
    var neighbours, window := NeighbourConflicts(projected), WindowConflict(aggregate, moved);
    ClashesAreFindings(neighbours, projected, ks, i);
    overlaps := FindingsOf(neighbours, i);
    FirstApplied(EffectsOf(s, m), m, Shown(c.old_), moved, LatestEnd(projected), i);
    LatestEndIsLatest(s.deadline, projected);
    LeavesWindowIff(moved, info.window);
    WindowFindings(aggregate, moved, neighbours, i);
    ProcessEffect(s, i, info);
    var first := [UpdateSession(m, Shown(c.old_), moved)]
      + (if s.deadline.None? || LatestEnd(projected) > s.deadline.value then [ExtendDeadline(LatestEnd(projected))]
         else []);
    ApplyConcat(EffectsOf(s, m), first, window + neighbours, i);
    ConflictsApplied(ApplyAll(EffectsOf(s, m), first, i), window + neighbours, i);
    AddIsAssociative(s.findings, FindingsOf(window, i), overlaps);
    ActionsAdd(if s.deadline.None? || LatestEnd(projected) > s.deadline.value then [DeadlineExtended] else [],
               Times(|window + neighbours|, ConflictRecorded));
  }

  lemma ActionsAdd(a: seq<Action>, b: seq<Action>)
    ensures [] + [SessionUpdated] + a + b == [SessionUpdated] + a + b
  {
  }

  lemma AggregateWindow(s: Store, m: string, info: PlanInfo)
    ensures AggregateOf(s, m, info).window == info.window
  {
  }

  lemma WindowFindings(aggregate: Aggregate, moved: TimeInterval, neighbours: seq<Decision>, change: nat)
    requires forall d | d in neighbours :: d.RecordConflict?
    ensures var window := WindowConflict(aggregate, moved);
      && (forall d | d in window + neighbours :: d.RecordConflict?)
      && FindingsOf(window + neighbours, change) == FindingsOf(window, change) + FindingsOf(neighbours, change)
      && |FindingsOf(neighbours, change)| == |neighbours|
      && FindingsOf(window, change) ==
         if moved.start < aggregate.window.start || moved.end > aggregate.window.end
         then [Finding(change, OutsidePlanningWindow, [aggregate.changedId])] else []
  {
  }

  /**
    Anything else leaves session and deadline. An event that is gone marks the mapping missing,
    with one finding; no difference is noted as such; the rest is noted as unsupported.
   */
  predicate OtherRecorded(s: Store, e: Effects, i: nat)
    requires i < |s.changes| && s.changes[i].mapping in s.sessions && s.changes[i].mapping in s.mappings
  {
    var c := s.changes[i];
    && e.session == s.sessions[c.mapping] && e.deadline == s.deadline && e.history == s.history
    && if Gone(c) then
         && e.status == ExternallyDeleted
         && e.findings == s.findings + [Finding(i, ExternalEventMissing, [c.mapping])]
         && e.actions == [MarkedMissing, ConflictRecorded]
       else
         && e.status == s.mappings[c.mapping].status && e.findings == s.findings
         && e.actions == [if SameEvent(c.old_, c.new_) then NoActionTaken else UnsupportedChange]
  }

  lemma {:induction false} OtherIsRecorded(s: Store, i: nat, info: PlanInfo)
    requires i < |s.changes| && Logged(s.changes[i]) && !IsMove(s.changes[i]) && Decide(s, i, info).Ok?
    ensures s.changes[i].mapping in s.mappings && s.changes[i].mapping in s.sessions
    ensures OtherRecorded(s, ApplyAll(EffectsOf(s, s.changes[i].mapping), Decide(s, i, info).value, i), i)
  {
    hide Decide, IsMove, SameEvent;
    DecidedIsMapped(s, i, info);
    DecisionsAre(s, i, info);
    var c := s.changes[i];
    var e, ds := EffectsOf(s, c.mapping), Decide(s, i, info).value;
    if Gone(c) {
      assert ds[..1] == [ds[0]] && [ds[0]][..0] == [];
      assert ApplyAll(e, ds[..1], i) == ApplyDecision(ApplyAll(e, [ds[0]][..0], i), ds[0], i);
      assert ApplyAll(e, ds, i) == ApplyDecision(ApplyAll(e, ds[..1], i), ds[1], i);
    } else {
      assert ds[..0] == [];
      assert ApplyAll(e, ds, i) == ApplyDecision(e, ds[0], i);
    }
  }

  /** What processing change i makes of the state: its own records, and nothing else. */
  ghost predicate ChangeRecorded(s: Store, next: Store, i: nat, info: PlanInfo)
    requires i < |s.changes|
  {
    var c := s.changes[i];
    && c.mapping in s.sessions && c.mapping in s.mappings && |next.changes| == |s.changes|
    && c.mapping in next.sessions && c.mapping in next.mappings
    && next.sessions == s.sessions[c.mapping := next.sessions[c.mapping]]
    && next.mappings == s.mappings[c.mapping := s.mappings[c.mapping].(status := next.mappings[c.mapping].status)]
    && next.changes == s.changes[i := c.(status := Processed, actions := next.changes[i].actions)]
    && var e := Effects(next.sessions[c.mapping], next.mappings[c.mapping].status, next.deadline, next.history,
                        next.findings, next.changes[i].actions);
       if IsMove(c) then exists projected, overlaps, ks :: MoveRecorded(s, e, i, info, projected, overlaps, ks)
       else OtherRecorded(s, e, i)
  }

  lemma ProcessRecords(s: Store, i: nat, info: PlanInfo)
    requires i < |s.changes| && Logged(s.changes[i]) && Unprocessed(s.changes[i]) && Process(s, i, info).Ok?
    ensures ChangeRecorded(s, Process(s, i, info).value, i, info)
  {
    hide Decide, ApplyAll, MoveRecorded, OtherRecorded;
    DecidedIsMapped(s, i, info);
    var m, next := s.changes[i].mapping, Process(s, i, info).value;
    var e := Effects(next.sessions[m], next.mappings[m].status, next.deadline, next.history, next.findings,
                     next.changes[i].actions);
    assert e == ApplyAll(EffectsOf(s, m), Decide(s, i, info).value, i);
    if IsMove(s.changes[i]) {
      var projected, overlaps, ks := MoveIsRecorded(s, i, info);
      assert MoveRecorded(s, e, i, info, projected, overlaps, ks);
    } else {
      OtherIsRecorded(s, i, info);
    }
  }

  // ----- when a change is processed -----

  /** Some session of the plan is taken along. */
  ghost predicate AnyTaken(s: Store, info: PlanInfo) {
    exists m | m in info.order :: Taken(s, m)
  }

  /** The kind stored is that of the difference. */
  predicate KindStored(c: Change) {
    ChangeKind(c.old_, c.new_) == Some(c.kind)
  }

  /**
    How a request to process a change is answered: a processed change with the state as it is, one
    being processed with an error. For others the session must be one of the plan's; and a move
    needs some session taken along, must start where the session is, and be of whole minutes.
   */
  lemma ProcessAnswers(s: Store, i: nat, info: PlanInfo)
    requires i < |s.changes| ==> KindStored(s.changes[i])
    ensures var r := Process(s, i, info);
      if i >= |s.changes| then r == Err(ChangeNotFound)
      else
        var c := s.changes[i];
        if c.mapping !in s.mappings || c.mapping !in s.sessions then r == Err(AggregateInvalid)
        else if c.status == Processed then r == Ok(s)
        else if c.status == Processing then r == Err(BeingProcessed)
        else if c.mapping !in info.order then r == Err(AggregateInvalid)
        else if IsMove(c) && !AnyTaken(s, info) then r == Err(PolicyFailed)
        else if IsMove(c) && StaleMove(c, s, c.mapping) then r == Err(Stale)
        else if IsMove(c) && !SyncOrder.WholeMinutes(Shown(c.new_)) then r == Err(NotWholeMinutes)
        else r.Ok?
  {
    hide Evaluate, AggregateOf, ApplyAll, KnownIds, ValidateDecisions, AnyTaken, Commit;
    if i < |s.changes| {
      var c := s.changes[i];
      if c.mapping in s.mappings && c.mapping in s.sessions {
        KnownIff(s, c.mapping, info);
        if c.mapping in info.order {
          if IsMove(c) {
            MoveAnswer(s, i, info);
          } else {
            OtherAnswer(s, i, info);
          }
        }
      }
    }
  }

  lemma KnownIff(s: Store, m: string, info: PlanInfo)
    requires m in s.sessions
    ensures m in KnownIds(AggregateOf(s, m, info)) <==> m in info.order
  {
    hide PolicySessionOf;
    PolicySessionsAre(s, info.order);
    PolicyId(s, m);
  }

  lemma OtherAnswer(s: Store, i: nat, info: PlanInfo)
    requires i < |s.changes| && KindStored(s.changes[i]) && !IsMove(s.changes[i])
    requires var m := s.changes[i].mapping;
      m in s.mappings && m in s.sessions && m in KnownIds(AggregateOf(s, m, info))
    ensures var c := s.changes[i];
      var aggregate := AggregateOf(s, c.mapping, info);
      var ds := Evaluate(aggregate, InputOf(c));
      ds.Ok? && ValidateDecisions(ds.value, c.mapping, s.sessions[c.mapping], KnownIds(aggregate)).None?
  {
    hide AggregateOf, KnownIds;
    var c := s.changes[i];
    AggregateChanged(s, c.mapping, info);
    var ds := Evaluate(AggregateOf(s, c.mapping, info), InputOf(c)).value;
    if Gone(c) {
      assert ds == [MarkMissing(c.mapping, c.new_.cancelled), RecordConflict(ExternalEventMissing, [c.mapping])];
    } else {
      assert ds == [NoAction] || ds == [Unsupported];
    }
    SyncOrder.NoFirstError(ds, c.mapping, s.sessions[c.mapping], KnownIds(AggregateOf(s, c.mapping, info)));
  }

  lemma {:induction false} FirstIsReported(ds: seq<Decision>, m: string, session: Session, known: set<string>)
    requires ds != [] && CheckDecision(ds[0], m, session, known).Some?
    ensures FirstError(ds, m, session, known) == CheckDecision(ds[0], m, session, known)
  {
    if |ds| > 1 {
      FirstIsReported(ds[..|ds| - 1], m, session, known);
    } else {
      assert ds[..0] == [];
    }
  }

  lemma NothingTaken(s: Store, m: string, moved: TimeInterval, info: PlanInfo)
    ensures ProjectedIntervals(AggregateOf(s, m, info), moved) == [] <==> !AnyTaken(s, info)
  {
    hide ProjectedIntervals, AggregateOf, Taken, IsAlong;
    ProjectionIs(s, m, moved, info);
    var projected := ProjectedIntervals(AggregateOf(s, m, info), moved);
    if projected != [] {
      var p := projected[0];
      assert p in projected;
      AlongIsTaken(p, s, p.session.id, m, moved);
    }
  }

  lemma AlongIsTaken(p: Projected, s: Store, m: string, changed: string, moved: TimeInterval)
    requires IsAlong(p, s, m, changed, moved)
    ensures Taken(s, m)
  {
  }

  lemma MoveAnswer(s: Store, i: nat, info: PlanInfo)
    requires i < |s.changes| && KindStored(s.changes[i]) && IsMove(s.changes[i])
    requires var m := s.changes[i].mapping;
      m in s.mappings && m in s.sessions && m in KnownIds(AggregateOf(s, m, info))
    ensures var c := s.changes[i];
      var aggregate := AggregateOf(s, c.mapping, info);
      var ds := Evaluate(aggregate, InputOf(c));
      && (ds.Err? <==> !AnyTaken(s, info))
      && (ds.Ok? ==>
            ValidateDecisions(ds.value, c.mapping, s.sessions[c.mapping], KnownIds(aggregate)) ==
            (if StaleMove(c, s, c.mapping) then Some(Stale)
             else if !SyncOrder.WholeMinutes(Shown(c.new_)) then Some(NotWholeMinutes) else None))
  {
    hide AggregateOf, KnownIds, MoveDecisions, FirstError, AnyTaken;
    var c := s.changes[i];
    var m := c.mapping;
    var aggregate := AggregateOf(s, m, info);
    AggregateChanged(s, m, info);
    assert Evaluate(aggregate, InputOf(c)) == MoveDecisions(aggregate, Shown(c.old_), Shown(c.new_));
    NothingTaken(s, m, Shown(c.new_), info);
    MoveFailsIff(aggregate, Shown(c.old_), Shown(c.new_));
    if MoveDecisions(aggregate, Shown(c.old_), Shown(c.new_)).Ok? {
      var ds := MoveDecisions(aggregate, Shown(c.old_), Shown(c.new_)).value;
      MoveShape(aggregate, Shown(c.old_), Shown(c.new_));
      if StaleMove(c, s, m) || !SyncOrder.WholeMinutes(Shown(c.new_)) {
        FirstIsReported(ds, m, s.sessions[m], KnownIds(aggregate));
        NoTerminal(aggregate, Shown(c.old_), Shown(c.new_));
      } else {
        SyncOrder.MoveValidates(aggregate, Shown(c.old_), Shown(c.new_), s.sessions[m]);
      }
    }
  }

  lemma MoveFailsIff(aggregate: Aggregate, previous: Span, moved: TimeInterval)
    ensures MoveDecisions(aggregate, previous, moved).Err? <==> ProjectedIntervals(aggregate, moved) == []
  {
    hide ProjectedIntervals, LatestEnd, MoveConflicts;
  }

  lemma NoTerminal(aggregate: Aggregate, previous: Span, moved: TimeInterval)
    requires MoveDecisions(aggregate, previous, moved).Ok?
    ensures forall d | d in MoveDecisions(aggregate, previous, moved).value :: !Terminal(d)
  {
    hide ProjectedIntervals, LatestEnd, NeighbourConflicts;
    ConflictsOnly(ProjectedIntervals(aggregate, moved));
  }

  // ----- the deadline's history -----

  /** The entries lead from one deadline to another, later with each. */
  predicate Leads(entries: seq<DeadlineEntry>, from: Option<int>, to: Option<int>) {
    if entries == [] then to == from
    else
      var last := entries[|entries| - 1];
      && to == Some(last.new_) && (last.previous.Some? ==> last.previous.value < last.new_)
      && Leads(entries[..|entries| - 1], from, last.previous)
  }

  /** The history has grown by the steps from one deadline to the other. */
  predicate HistoryLeads(old_: seq<DeadlineEntry>, from: Option<int>, new_: seq<DeadlineEntry>, to: Option<int>) {
    old_ <= new_ && Leads(new_[|old_|..], from, to)
  }

  lemma DecisionLeads(old_: seq<DeadlineEntry>, from: Option<int>, e: Effects, d: Decision, change: nat)
    requires HistoryLeads(old_, from, e.history, e.deadline)
    ensures var next := ApplyDecision(e, d, change); HistoryLeads(old_, from, next.history, next.deadline)
  {
    var next := ApplyDecision(e, d, change);
    if next.history != e.history {
      var n := |old_|;
      assert next.history[n..][..|next.history| - n - 1] == e.history[n..];
      assert next.history[n..][|next.history| - n - 1] == next.history[|next.history| - 1];
    }
  }

  lemma {:induction false} DecisionsLead(
    old_: seq<DeadlineEntry>, from: Option<int>, e: Effects, ds: seq<Decision>, change: nat)
    requires HistoryLeads(old_, from, e.history, e.deadline)
    ensures var next := ApplyAll(e, ds, change); HistoryLeads(old_, from, next.history, next.deadline)
  {
    hide HistoryLeads, ApplyDecision;
    if ds != [] {
      DecisionsLead(old_, from, e, ds[..|ds| - 1], change);
      DecisionLeads(old_, from, ApplyAll(e, ds[..|ds| - 1], change), ds[|ds| - 1], change);
    }
  }

  /** Over any run, what the deadline history gains is the chain of deadlines from the first to the last. */
  lemma {:induction false} HistoryIsChain(s: Store, steps: seq<Step>, info: PlanInfo)
    ensures var end := Run(s, steps, info); HistoryLeads(s.history, s.deadline, end.history, end.deadline)
  {
    hide HistoryLeads, Pull, Decide, ApplyAll;
    if steps == [] {
      NothingLeads(s.history, s.deadline);
    } else {
      var init, last := steps[..|steps| - 1], steps[|steps| - 1];
      HistoryIsChain(s, init, info);
      var mid := Run(s, init, info);
      match last {
        case PullStep(target, fetch) => PullKeepsHistory(mid, target, fetch, info);
        case ProcessStep(i) =>
          if Process(mid, i, info).Ok? && Process(mid, i, info).value != mid {
            DecidedIsMapped(mid, i, info);
            DecisionsLead(s.history, s.deadline, EffectsOf(mid, mid.changes[i].mapping),
                          Decide(mid, i, info).value, i);
          }
      }
    }
  }

  lemma NothingLeads(history: seq<DeadlineEntry>, deadline: Option<int>)
    ensures HistoryLeads(history, deadline, history, deadline)
  {
    assert history[|history|..] == [];
  }

  lemma PullKeepsHistory(s: Store, target: string, fetch: Fetch, info: PlanInfo)
    ensures var next := Pull(s, target, fetch, info); next.history == s.history && next.deadline == s.deadline
  {
  }
}
