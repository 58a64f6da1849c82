/**
  Which pending changes take effect, that taking them oldest first never meets the staleness
  guard, and what moves do to the deadline.
 */
module SyncOrder {
  import opened Prelude
  import opened Sorting
  import opened Intervals
  import opened Policy
  import opened Sync
  import opened SyncConvergence

  // ----- the exact guard -----

  predicate WholeMinutes(s: Span) {
    (s.end - s.start) % MINUTE == 0
  }

  lemma {:induction false} NoFirstError(decisions: seq<Decision>, m: string, session: Session, known: set<string>)
    requires forall d | d in decisions :: CheckDecision(d, m, session, known).None?
    ensures FirstError(decisions, m, session, known).None?
  {
    if decisions != [] {
      assert decisions[|decisions| - 1] in decisions;
      assert forall d | d in decisions[..|decisions| - 1] :: d in decisions;
      NoFirstError(decisions[..|decisions| - 1], m, session, known);
    }
  }

  lemma {:induction false} ProjectAllMembers(sessions: seq<PolicySession>, changedId: string, moved: TimeInterval)
    ensures forall p | p in ProjectAll(sessions, changedId, moved) :: p.session in sessions
    ensures forall s | s in sessions && Projects(s) ::
      ProjectOne(s, changedId, moved) in ProjectAll(sessions, changedId, moved)
  {
    if sessions != [] {
      var init, last := sessions[..|sessions| - 1], sessions[|sessions| - 1];
      ProjectAllMembers(init, changedId, moved);
      assert last in sessions && forall s | s in init :: s in sessions;
      forall s | s in sessions && Projects(s)
        ensures ProjectOne(s, changedId, moved) in ProjectAll(sessions, changedId, moved)
      {
        assert s == last || s in init;
      }
    }
  }

  lemma {:induction false} NeighbourIdsKnown(projected: seq<Projected>, known: set<string>)
    requires forall p | p in projected :: p.session.id in known
    ensures forall d | d in NeighbourConflicts(projected) ::
      d.RecordConflict? && d.ids != [] && forall id | id in d.ids :: id in known
  {
    if |projected| >= 2 {
      var n := |projected|;
      assert projected[n - 1] in projected && projected[n - 2] in projected;
      assert forall p | p in projected[..n - 1] :: p in projected;
      NeighbourIdsKnown(projected[..n - 1], known);
    }
  }

  /** The decisions of a move of a live session pass validation when the move is not stale and of whole minutes. */
  lemma MoveValidates(aggregate: Aggregate, previous: Span, moved: TimeInterval, session: Session)
    requires aggregate.changedId in KnownIds(aggregate)
    requires MoveDecisions(aggregate, previous, moved).Ok?
    requires previous == session.span && WholeMinutes(moved)
    ensures ValidateDecisions(
      MoveDecisions(aggregate, previous, moved).value, aggregate.changedId, session, KnownIds(aggregate)).None?
  {
    hide ProjectedIntervals, LatestEnd, NeighbourConflicts, KnownIds;
    var m, known := aggregate.changedId, KnownIds(aggregate);
    var projected := ProjectedIntervals(aggregate, moved);
    var ds := MoveDecisions(aggregate, previous, moved).value;
    ProjectedKnown(aggregate, moved);
    NeighbourIdsKnown(projected, known);
    forall d | d in ds ensures CheckDecision(d, m, session, known).None? && !Terminal(d) {
      if d in NeighbourConflicts(projected) {
        assert forall id | id in d.ids :: id in known;
      }
    }
    NoFirstError(ds, m, session, known);
  }

  lemma ProjectedKnown(aggregate: Aggregate, moved: TimeInterval)
    ensures forall p | p in ProjectedIntervals(aggregate, moved) :: p.session.id in KnownIds(aggregate)
  {
    var all := ProjectAll(aggregate.sessions, aggregate.changedId, moved);
    ProjectAllMembers(aggregate.sessions, aggregate.changedId, moved);
    SameElements(Sort(all, ProjectedLe), all);
  }

  lemma {:induction false} LiveSessionListed(s: Store, order: seq<string>, m: string)
    requires m in order && m in s.sessions
    ensures PolicySessionOf(s, m) in PolicySessions(s, order)
  {
    var last := order[|order| - 1];
    if last != m {
      assert m in order[..|order| - 1];
      LiveSessionListed(s, order[..|order| - 1], m);
    }
  }

  lemma LiveProjects(s: Store, m: string, info: PlanInfo, moved: TimeInterval)
    requires m in info.order && m in s.sessions && m in s.mappings
    requires s.mappings[m].status != ExternallyDeleted
    ensures ProjectedIntervals(AggregateOf(s, m, info), moved) != []
    ensures m in KnownIds(AggregateOf(s, m, info))
  {
    var aggregate := AggregateOf(s, m, info);
    LiveSessionListed(s, info.order, m);
    var own := PolicySessionOf(s, m);
    assert own in aggregate.sessions && own.id == m && Projects(own);
    ProjectAllMembers(aggregate.sessions, m, moved);
    var all := ProjectAll(aggregate.sessions, m, moved);
    assert all != [];
    assert |Sort(all, ProjectedLe)| == |all|;
  }

  /** A pending move of a live mapping takes effect exactly when it is not stale and is of whole minutes. */
  lemma MoveAppliesIff(s: Store, i: nat, info: PlanInfo)
    requires i < |s.changes| && Logged(s.changes[i]) && IsMove(s.changes[i]) && Unprocessed(s.changes[i])
    requires var m := s.changes[i].mapping;
      m in s.sessions && m in s.mappings && m in info.order && s.mappings[m].status != ExternallyDeleted
    ensures Process(s, i, info).Ok? <==>
            !StaleMove(s.changes[i], s, s.changes[i].mapping) && WholeMinutes(Shown(s.changes[i].new_))
    ensures Process(s, i, info).Ok? ==>
            Process(s, i, info).value.sessions[s.changes[i].mapping].span == Shown(s.changes[i].new_)
  {
    hide AggregateOf, ApplyAll, MoveDecisions, KnownIds;
    var c := s.changes[i];
    var m := c.mapping;
    var aggregate := AggregateOf(s, m, info);
    AggregateChanged(s, m, info);
    LiveProjects(s, m, info, Shown(c.new_));
    MoveNonEmpty(aggregate, Shown(c.old_), Shown(c.new_));
    var decisions := Evaluate(aggregate, InputOf(c));
    assert decisions == MoveDecisions(aggregate, Shown(c.old_), Shown(c.new_));
    if Decide(s, i, info).Ok? {
      MoveShape(aggregate, Shown(c.old_), Shown(c.new_));
      FirstErrorCovers(decisions.value, m, s.sessions[m], KnownIds(aggregate));
      assert decisions.value[0] in decisions.value;
      ProcessEffect(s, i, info);
    }
    if !StaleMove(c, s, m) && WholeMinutes(Shown(c.new_)) {
      MoveValidates(aggregate, Shown(c.old_), Shown(c.new_), s.sessions[m]);
    }
  }

  lemma MoveNonEmpty(aggregate: Aggregate, previous: Span, moved: TimeInterval)
    requires ProjectedIntervals(aggregate, moved) != []
    ensures MoveDecisions(aggregate, previous, moved).Ok?
  {
  }

  /** An update of a listed session is always processed. */
  lemma UpdateApplies(s: Store, i: nat, info: PlanInfo)
    requires i < |s.changes| && Logged(s.changes[i]) && BothPresent(s.changes[i])
    requires !IsMove(s.changes[i]) && Unprocessed(s.changes[i])
    requires var m := s.changes[i].mapping; m in s.sessions && m in s.mappings && m in info.order
    ensures Process(s, i, info).Ok?
  {
    hide AggregateOf, KnownIds, ApplyAll;
    var c := s.changes[i];
    var aggregate := AggregateOf(s, c.mapping, info);
    ListedIsKnown(s, c.mapping, info);
    var decisions := Evaluate(aggregate, InputOf(c)).value;
    assert decisions == [NoAction] || decisions == [Unsupported];
    NoFirstError(decisions, c.mapping, s.sessions[c.mapping], KnownIds(aggregate));
  }

  lemma ListedIsKnown(s: Store, m: string, info: PlanInfo)
    requires m in info.order && m in s.sessions
    ensures m in KnownIds(AggregateOf(s, m, info))
  {
    LiveSessionListed(s, info.order, m);
    assert PolicySessionOf(s, m).id == m;
  }

  // ----- oldest first -----

  predicate Any(c: Change) {
    true
  }

  /** From any of its changes on, the mapping's changes lead from where that change left to the last snapshot. */
  predicate Leads(s: Store, i: nat, m: string, v: Span, info: PlanInfo)
    requires i < |s.changes| && m in s.mappings && m in s.sessions
  {
    Total(s.changes, i, m, v, Any) ==
    Indicator(Place(LastSnapshot(s, m, info)) == Some(v)) - Indicator(Place(s.changes[i].old_) == Some(v))
  }

  ghost predicate Chained(s: Store, n: nat, m: string, info: PlanInfo) {
    && Balanced(s, n, m, info)
    && forall i, v | n <= i < |s.changes| && s.changes[i].mapping == m :: Leads(s, i, m, v, info)
  }

  lemma BalancedFacts(s: Store, n: nat, m: string, info: PlanInfo)
    requires Balanced(s, n, m, info)
    ensures m in s.mappings && m in s.sessions && n <= |s.changes|
    ensures s.mappings[m].snapshot.None? ==> forall j | n <= j < |s.changes| :: s.changes[j].mapping != m
  {
  }

  lemma AnyEdge(m: string, v: Span, c: Change)
    ensures EdgeIf(m, v, Any)(c) == if c.mapping == m then Edge(c, v) else 0
  {
    assert Any(c);
  }

  lemma TotalOfLast(changes: seq<Change>, c: Change, m: string, v: Span, p: Change -> bool)
    ensures Total(changes + [c], |changes|, m, v, p) == EdgeIf(m, v, p)(c)
  {
    TotalAppend(changes, c, |changes|, m, v, p);
    assert changes[|changes|..] == [];
  }

  lemma RecordKeepsChain(s: Store, n: nat, m: string, target: string, current: Snapshot, info: PlanInfo)
    requires Chained(s, n, m, info) && target in s.mappings && target in s.sessions
    ensures Chained(Record(s, target, current, info), n, m, info)
  {
    hide SyncedWith, Balanced, Total, ChangeKind;
    RecordKeepsBalance(s, n, m, target, current, info);
    BalancedFacts(s, n, m, info);
    var next := Record(s, target, current, info);
    var previous := Baseline(s.mappings[target], s.sessions[target], info.timezone);
    var kind := ChangeKind(previous, current);
    if next != s {
      SyncedWithSnapshot(s.mappings[target], current);
      NoKindSamePlace(previous, current);
      assert target == m ==> LastSnapshot(next, m, info) == current;
      assert target != m ==> LastSnapshot(next, m, info) == LastSnapshot(s, m, info);
      forall i, v | n <= i < |next.changes| && next.changes[i].mapping == m ensures Leads(next, i, m, v, info) {
        if kind.Some? {
          var change := Change(target, kind.value, previous, current, Pending, []);
          if i < |s.changes| {
            assert Leads(s, i, m, v, info);
            TotalAppend(s.changes, change, i, m, v, Any);
            AnyEdge(m, v, change);
          } else {
            TotalOfLast(s.changes, change, m, v, Any);
            AnyEdge(m, v, change);
          }
        } else {
          assert Leads(s, i, m, v, info);
        }
      }
    }
  }

  lemma PullKeepsChain(s: Store, n: nat, m: string, target: string, fetch: Fetch, info: PlanInfo)
    requires Chained(s, n, m, info)
    ensures Chained(Pull(s, target, fetch, info), n, m, info)
  {
    hide Record, Chained;
    if target in s.mappings && target in s.sessions {
      match fetch {
        case EventNotFound => RecordKeepsChain(s, n, m, target, NotFoundSnapshot(s.mappings[target]), info);
        case ProviderError => FailedPullKeepsChain(s, n, m, target, info);
        case Fetched(current) =>
          if OtherIdentity(s.mappings[target], current) {
            FailedPullKeepsChain(s, n, m, target, info);
          } else {
            RecordKeepsChain(s, n, m, target, current, info);
          }
      }
    }
  }

  lemma FailedPullKeepsChain(s: Store, n: nat, m: string, target: string, info: PlanInfo)
    requires Chained(s, n, m, info) && target in s.mappings
    ensures Chained(s.(mappings := s.mappings[target := s.mappings[target].(status := SyncFailed)]), n, m, info)
  {
    hide Balanced, Total;
    FailedPullKeepsBalance(s, n, m, target, info);
    BalancedFacts(s, n, m, info);
    var next := s.(mappings := s.mappings[target := s.mappings[target].(status := SyncFailed)]);
    forall i, v | n <= i < |next.changes| && next.changes[i].mapping == m ensures Leads(next, i, m, v, info) {
      assert Leads(s, i, m, v, info);
    }
  }

  lemma ProcessKeepsChain(s: Store, n: nat, m: string, k: nat, info: PlanInfo)
    requires Chained(s, n, m, info) && Process(s, k, info).Ok?
    ensures Chained(Process(s, k, info).value, n, m, info)
  {
    hide Decide, ApplyAll, Balanced, Total;
    ProcessKeepsBalance(s, n, m, k, info);
    var next := Process(s, k, info).value;
    BalancedFacts(s, n, m, info);
    DecidedIsMapped(s, k, info);
    if next != s {
      var done := next.changes[k];
      forall i, v | n <= i < |next.changes| && next.changes[i].mapping == m ensures Leads(next, i, m, v, info) {
        assert s.mappings[m].snapshot.Some?;
        assert Leads(s, i, m, v, info);
        TotalUpdate(s.changes, k, done, i, m, v, Any);
        AnyEdge(m, v, done);
        AnyEdge(m, v, s.changes[k]);
      }
    }
  }

  lemma {:induction false} RunKeepsChain(s: Store, steps: seq<Step>, n: nat, m: string, info: PlanInfo)
    requires Chained(s, n, m, info)
    ensures Chained(Run(s, steps, info), n, m, info)
  {
    hide Pull, Process, Chained;
    if steps != [] {
      RunKeepsChain(s, steps[..|steps| - 1], n, m, info);
      var mid := Run(s, steps[..|steps| - 1], info);
      match steps[|steps| - 1] {
        case PullStep(target, fetch) => PullKeepsChain(mid, n, m, target, fetch, info);
        case ProcessStep(i) =>
          if Process(mid, i, info).Ok? {
            ProcessKeepsChain(mid, n, m, i, info);
          }
      }
    }
  }

  /** The mapping's changes before i are processed, those from i on are not. */
  predicate ProcessedUpTo(changes: seq<Change>, i: nat, m: string) {
    && (forall j | 0 <= j < |changes| && j < i && changes[j].mapping == m :: !Unprocessed(changes[j]))
    && (forall j | i <= j < |changes| && changes[j].mapping == m :: Unprocessed(changes[j]))
  }

  /** Among present changes, the open edges are those of the changes from i on. */
  lemma {:induction false} OpenIsSuffix(changes: seq<Change>, n: nat, i: nat, m: string, v: Span)
    requires n <= i <= |changes| && ProcessedUpTo(changes, i, m)
    requires forall j | n <= j < |changes| && changes[j].mapping == m :: Logged(changes[j]) && BothPresent(changes[j])
    ensures Total(changes, n, m, v, Open) == Total(changes, i, m, v, Any)
    decreases |changes|
  {
    hide ChangeKind, Total;
    if |changes| == i {
      ProcessedIsNothing(changes, n, m, v);
    } else {
      var init, last := changes[..|changes| - 1], changes[|changes| - 1];
      OpenIsSuffix(init, n, i, m, v);
      assert changes == init + [last];
      TotalAppend(init, last, n, m, v, Open);
      TotalAppend(init, last, i, m, v, Any);
      OpenEdge(m, v, last);
      AnyEdge(m, v, last);
    }
  }

  lemma ProcessedIsNothing(changes: seq<Change>, n: nat, m: string, v: Span)
    requires n <= |changes| && ProcessedUpTo(changes, |changes|, m)
    requires forall j | n <= j < |changes| && changes[j].mapping == m :: Logged(changes[j]) && BothPresent(changes[j])
    ensures Total(changes, n, m, v, Open) == 0 == Total(changes, |changes|, m, v, Any)
  {
    hide ChangeKind;
    forall j | n <= j < |changes| ensures EdgeIf(m, v, Open)(changes[j]) == Nothing()(changes[j]) {
      OpenEdge(m, v, changes[j]);
      if changes[j].mapping == m {
        PresentIsMoveOrUpdate(changes[j]);
      }
    }
    SumsAgree(changes[n..], EdgeIf(m, v, Open), Nothing());
    SumOfNothing(changes[n..]);
    assert changes[|changes|..] == [];
  }

  function Nothing(): Change -> int {
    (c: Change) => 0
  }

  lemma {:induction false} SumOfNothing(changes: seq<Change>)
    ensures SumBy(changes, Nothing()) == 0
  {
    if changes != [] {
      SumOfNothing(changes[..|changes| - 1]);
    }
  }

  lemma StartsChained(s: Store, steps: seq<Step>, m: string, info: PlanInfo)
    requires Agrees(s, m, info)
    ensures Chained(Run(s, steps, info), |s.changes|, m, info)
  {
    hide Run, Agrees, Balanced;
    AgreeingIsBalanced(s, m, info);
    RunKeepsChain(s, steps, |s.changes|, m, info);
  }

  /** Once the changes before it are processed and those from it on are not, a change is never stale. */
  lemma {:induction false} OldestFirstIsNeverStale(s: Store, steps: seq<Step>, m: string, info: PlanInfo, i: nat)
    requires Agrees(s, m, info) && NeverMissing(steps, m)
    requires var end := Run(s, steps, info);
      |s.changes| <= i < |end.changes| && end.changes[i].mapping == m && ProcessedUpTo(end.changes, i, m)
    ensures var end := Run(s, steps, info);
      m in end.sessions && !StaleMove(end.changes[i], end, m)
  {
    hide Run, Agrees, Total, ChangeKind, NeverMissing;
    StartsChained(s, steps, m, info);
    StartsPresent(s, steps, m, info);
    var end := Run(s, steps, info);
    var v := Shown(end.changes[i].old_);
    OpenIsSuffix(end.changes, |s.changes|, i, m, v);
    assert Leads(end, i, m, v, info);
    assert Indicator(end.sessions[m].span == v) + Total(end.changes, |s.changes|, m, v, Open) ==
           Indicator(Place(LastSnapshot(end, m, info)) == Some(v));
  }

  // ----- the deadline -----

  ghost predicate NotEarlier(a: Option<int>, b: Option<int>) {
    a.Some? ==> b.Some? && a.value <= b.value
  }

  lemma {:induction false} AppliedDeadline(e: Effects, decisions: seq<Decision>, change: nat)
    ensures ApplyAll(e, decisions, change).deadline == DeadlineAfter(e.deadline, decisions)
    ensures NotEarlier(e.deadline, ApplyAll(e, decisions, change).deadline)
  {
    if decisions != [] {
      AppliedDeadline(e, decisions[..|decisions| - 1], change);
    }
  }

  /** A move that takes effect leaves the deadline the deadline policy prescribes for the projected ends. */
  lemma ProcessedMoveDeadline(s: Store, i: nat, info: PlanInfo)
    requires i < |s.changes| && Logged(s.changes[i]) && IsMove(s.changes[i])
    requires Decide(s, i, info).Ok?
    ensures var c := s.changes[i];
      Process(s, i, info).Ok? &&
      Process(s, i, info).value.deadline ==
      DeadlineAfterMove(s.deadline, Ends(ProjectedIntervals(AggregateOf(s, c.mapping, info), Shown(c.new_))))
  {
    hide MoveDecisions, AggregateOf, ApplyAll, ProjectedIntervals;
    var c := s.changes[i];
    DecidedIsMapped(s, i, info);
    var aggregate := AggregateOf(s, c.mapping, info);
    AggregateChanged(s, c.mapping, info);
    MoveFollowsDeadlinePolicy(aggregate, Shown(c.old_), Shown(c.new_));
    AppliedDeadline(EffectsOf(s, c.mapping), Decide(s, i, info).value, i);
  }

  lemma NextDeadlineNotEarlier(s: Store, step: Step, info: PlanInfo)
    ensures NotEarlier(s.deadline, Next(s, step, info).deadline)
  {
    hide Decide, ApplyAll, ChangeKind;
    if step.ProcessStep? && step.change < |s.changes| && Decide(s, step.change, info).Ok? {
      DecidedIsMapped(s, step.change, info);
      AppliedDeadline(EffectsOf(s, s.changes[step.change].mapping), Decide(s, step.change, info).value, step.change);
    }
  }

  /** Over any run at all, the deadline never moves earlier. */
  lemma {:induction false} DeadlineNeverEarlier(s: Store, steps: seq<Step>, info: PlanInfo)
    ensures NotEarlier(s.deadline, Run(s, steps, info).deadline)
  {
    hide Next;
    if steps != [] {
      DeadlineNeverEarlier(s, steps[..|steps| - 1], info);
      NextDeadlineNotEarlier(Run(s, steps[..|steps| - 1], info), steps[|steps| - 1], info);
    }
  }
}
