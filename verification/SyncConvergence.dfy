/**
  Processing in any order. Every recorded change of a mapping is an edge from the place it left
  to the place it found; a missing event has no place. The recorded edges lead from the first
  snapshot to the last one, and the moves processed lead from the same start to the session's
  present interval. Counting edges in and out of each interval, what is pending, together with
  what deletions and re-creations did without moving the session, must lead from the session
  to the snapshot.
 */
module SyncConvergence {
  import opened Prelude
  import opened Sorting
  import opened Intervals
  import opened Policy
  import opened Sync

  /** The interval a present snapshot shows. */
  function Shown(s: Snapshot): Span
    requires s.Present()
  {
    Span(s.start.value.utc, s.end.value.utc)
  }

  /** The same for any snapshot: a deleted or cancelled event is nowhere. */
  function Place(s: Snapshot): Option<Span> {
    if s.Present() then Some(Shown(s)) else None
  }

  predicate Unprocessed(c: Change) {
    c.status != Processed
  }

  /** As a pull appends it and processing leaves it. */
  predicate Logged(c: Change) {
    ChangeKind(c.old_, c.new_) == Some(c.kind) && (c.status == Pending || c.status == Processed)
  }

  predicate BothPresent(c: Change) {
    c.old_.Present() && c.new_.Present()
  }

  /** The changes that move a session when they are processed. */
  predicate IsMove(c: Change) {
    c.kind == Moved && BothPresent(c)
  }

  /** Among present snapshots a change is a move or an update. */
  lemma PresentIsMoveOrUpdate(c: Change)
    requires Logged(c) && BothPresent(c)
    ensures c.kind == Moved || c.kind == Updated
    ensures IsMove(c) <==> Place(c.old_) != Place(c.new_)
  {
  }

  /** One for a change that arrives at v, minus one for a change that leaves v. */
  function Edge(c: Change, v: Span): int {
    Indicator(Place(c.new_) == Some(v)) - Indicator(Place(c.old_) == Some(v))
  }

  function EdgeIf(m: string, v: Span, p: Change -> bool): Change -> int {
    (c: Change) => if c.mapping == m && p(c) then Edge(c, v) else 0
  }

  /** Arrivals at v minus departures from v, over the mapping's changes from index n on that satisfy p. */
  function Total(changes: seq<Change>, n: nat, m: string, v: Span, p: Change -> bool): int
    requires n <= |changes|
  {
    SumBy(changes[n..], EdgeIf(m, v, p))
  }

  /** Not taken over by the session: still pending, or a change that moves no session. */
  predicate Open(c: Change) {
    Unprocessed(c) || !IsMove(c)
  }

  predicate NoMove(c: Change) {
    !IsMove(c)
  }

  /** Re-creations at v minus deletions from v, over the mapping's changes from index n on. */
  function Lost(changes: seq<Change>, n: nat, m: string, v: Span): int
    requires n <= |changes|
  {
    Total(changes, n, m, v, NoMove)
  }

  /** The last recorded snapshot of a mapping, or what stands in for it. */
  function LastSnapshot(s: Store, m: string, info: PlanInfo): Snapshot
    requires m in s.mappings && m in s.sessions
  {
    Baseline(s.mappings[m], s.sessions[m], info.timezone)
  }

  /** Session and snapshot agree. */
  predicate InAgreement(s: Store, m: string, info: PlanInfo)
    requires m in s.mappings && m in s.sessions
  {
    Place(LastSnapshot(s, m, info)) == Some(s.sessions[m].span)
  }

  predicate AllProcessed(changes: seq<Change>, m: string) {
    forall c | c in changes :: c.mapping == m ==> !Unprocessed(c)
  }

  /** Where the theorems start: session and snapshot agree, and every change so far is processed. */
  predicate Agrees(s: Store, m: string, info: PlanInfo) {
    m in s.mappings && m in s.sessions && InAgreement(s, m, info) && AllProcessed(s.changes, m)
  }

  /**
    The invariant of runs that start with n changes: the mapping's changes before n are
    processed, those from n on are as pulls record them, there are none before the first
    snapshot, and at every interval the session's place plus the open edges is the snapshot's
    place.
   */
  ghost predicate Balanced(s: Store, n: nat, m: string, info: PlanInfo) {
    && m in s.mappings && m in s.sessions && n <= |s.changes|
    && (forall j | 0 <= j < n && s.changes[j].mapping == m :: !Unprocessed(s.changes[j]))
    && (forall j | n <= j < |s.changes| && s.changes[j].mapping == m :: Logged(s.changes[j]))
    && (s.mappings[m].snapshot.None? ==>
          InAgreement(s, m, info) && forall j | n <= j < |s.changes| :: s.changes[j].mapping != m)
    && forall v ::
         Indicator(s.sessions[m].span == v) + Total(s.changes, n, m, v, Open) ==
         Indicator(Place(LastSnapshot(s, m, info)) == Some(v))
  }

  lemma AgreeingIsBalanced(s: Store, m: string, info: PlanInfo)
    requires Agrees(s, m, info)
    ensures Balanced(s, |s.changes|, m, info)
  {
    forall j | 0 <= j < |s.changes| && s.changes[j].mapping == m ensures !Unprocessed(s.changes[j]) {
      assert s.changes[j] in s.changes;
    }
  }

  // ----- sums of edges -----

  lemma OpenEdge(m: string, v: Span, c: Change)
    ensures EdgeIf(m, v, Open)(c) == if c.mapping == m && Open(c) then Edge(c, v) else 0
  {
  }

  lemma TotalAppend(changes: seq<Change>, c: Change, n: nat, m: string, v: Span, p: Change -> bool)
    requires n <= |changes|
    ensures Total(changes + [c], n, m, v, p) == Total(changes, n, m, v, p) + EdgeIf(m, v, p)(c)
  {
    assert (changes + [c])[n..] == changes[n..] + [c];
    assert (changes[n..] + [c])[..|changes| - n] == changes[n..];
  }

  lemma TotalUpdate(changes: seq<Change>, i: nat, d: Change, n: nat, m: string, v: Span, p: Change -> bool)
    requires n <= |changes| && i < |changes|
    ensures Total(changes[i := d], n, m, v, p) ==
            Total(changes, n, m, v, p)
            + (if i < n then 0 else EdgeIf(m, v, p)(d) - EdgeIf(m, v, p)(changes[i]))
  {
    if i < n {
      assert changes[i := d][n..] == changes[n..];
    } else {
      assert changes[i := d][n..] == changes[n..][i - n := d];
      SumByUpdate(changes[n..], i - n, d, EdgeIf(m, v, p));
    }
  }

  lemma {:induction false} SumsAgree(changes: seq<Change>, f: Change -> int, g: Change -> int)
    requires forall j :: 0 <= j < |changes| ==> f(changes[j]) == g(changes[j])
    ensures SumBy(changes, f) == SumBy(changes, g)
  {
    if changes != [] {
      SumsAgree(changes[..|changes| - 1], f, g);
    }
  }

  /** Two selections that agree from index n on have the same total. */
  lemma TotalsAgree(changes: seq<Change>, n: nat, m: string, v: Span, p: Change -> bool, q: Change -> bool)
    requires n <= |changes|
    requires forall j | n <= j < |changes| && changes[j].mapping == m :: p(changes[j]) <==> q(changes[j])
    ensures Total(changes, n, m, v, p) == Total(changes, n, m, v, q)
  {
    SumsAgree(changes[n..], EdgeIf(m, v, p), EdgeIf(m, v, q));
  }

  lemma {:induction false} SumNonNegative(changes: seq<Change>, f: Change -> int)
    requires forall j :: 0 <= j < |changes| ==> f(changes[j]) >= 0
    ensures SumBy(changes, f) >= 0
  {
    if changes != [] {
      SumNonNegative(changes[..|changes| - 1], f);
    }
  }

  // ----- one step keeps the balance -----

  /** A pull appends the edge from the old snapshot to the new one, or changes no place. */
  lemma RecordKeepsBalance(s: Store, n: nat, m: string, target: string, current: Snapshot, info: PlanInfo)
    requires Balanced(s, n, m, info) && target in s.mappings && target in s.sessions
    ensures Balanced(Record(s, target, current, info), n, m, info)
  {
    hide SyncedWith, ChangeKind, Total;
    var next := Record(s, target, current, info);
    var previous := Baseline(s.mappings[target], s.sessions[target], info.timezone);
    var kind := ChangeKind(previous, current);
    if next != s {
      SyncedWithSnapshot(s.mappings[target], current);
      NoKindSamePlace(previous, current);
      assert target == m ==> LastSnapshot(next, m, info) == current;
      assert target != m ==> LastSnapshot(next, m, info) == LastSnapshot(s, m, info);
      if kind.Some? {
        var change := Change(target, kind.value, previous, current, Pending, []);
        forall v ensures Total(next.changes, n, m, v, Open) ==
                         Total(s.changes, n, m, v, Open) + (if target == m then Edge(change, v) else 0)
        {
          TotalAppend(s.changes, change, n, m, v, Open);
          OpenEdge(m, v, change);
        }
      }
    }
  }

  lemma NoKindSamePlace(previous: Snapshot, current: Snapshot)
    ensures ChangeKind(previous, current).None? ==> Place(previous) == Place(current)
  {
  }

  lemma SyncedWithSnapshot(mapping: Mapping, current: Snapshot)
    ensures SyncedWith(mapping, current).snapshot == Some(current)
    ensures current.Present() ==> SyncedWith(mapping, current).status == Synced
  {
  }

  lemma PullKeepsBalance(s: Store, n: nat, m: string, target: string, fetch: Fetch, info: PlanInfo)
    requires Balanced(s, n, m, info)
    ensures Balanced(Pull(s, target, fetch, info), n, m, info)
  {
    hide Record, Balanced;
    if target in s.mappings && target in s.sessions {
      var mapping := s.mappings[target];
      match fetch {
        case EventNotFound => RecordKeepsBalance(s, n, m, target, NotFoundSnapshot(mapping), info);
        case ProviderError => FailedPullKeepsBalance(s, n, m, target, info);
        case Fetched(current) =>
          if OtherIdentity(mapping, current) {
            FailedPullKeepsBalance(s, n, m, target, info);
          } else {
            RecordKeepsBalance(s, n, m, target, current, info);
          }
      }
    }
  }

  lemma FailedPullKeepsBalance(s: Store, n: nat, m: string, target: string, info: PlanInfo)
    requires Balanced(s, n, m, info) && target in s.mappings
    ensures Balanced(s.(mappings := s.mappings[target := s.mappings[target].(status := SyncFailed)]), n, m, info)
  {
    hide Total;
    var next := s.(mappings := s.mappings[target := s.mappings[target].(status := SyncFailed)]);
    assert Place(LastSnapshot(next, m, info)) == Place(LastSnapshot(s, m, info));
  }

  // ----- what processing does -----

  /** Only the one update of a decision list touches the session. */
  lemma {:induction false} ConflictsKeepSession(e: Effects, decisions: seq<Decision>, change: nat)
    requires forall d | d in decisions :: !d.UpdateSession? && !d.MarkMissing?
    ensures ApplyAll(e, decisions, change).session == e.session
    ensures ApplyAll(e, decisions, change).status == e.status
  {
    if decisions != [] {
      assert forall d | d in decisions[..|decisions| - 1] :: d in decisions;
      assert decisions[|decisions| - 1] in decisions;
      ConflictsKeepSession(e, decisions[..|decisions| - 1], change);
    }
  }

  lemma {:induction false} ApplyConcat(e: Effects, a: seq<Decision>, b: seq<Decision>, change: nat)
    ensures ApplyAll(e, a + b, change) == ApplyAll(ApplyAll(e, a, change), b, change)
  {
    if b == [] {
      assert a + b == a;
    } else {
      assert (a + b)[..|a + b| - 1] == a + b[..|b| - 1];
      ApplyConcat(e, a, b[..|b| - 1], change);
    }
  }

  lemma {:induction false} FirstErrorCovers(decisions: seq<Decision>, m: string, session: Session, known: set<string>)
    requires FirstError(decisions, m, session, known).None?
    ensures forall d | d in decisions :: CheckDecision(d, m, session, known).None?
  {
    if decisions != [] {
      FirstErrorCovers(decisions[..|decisions| - 1], m, session, known);
      forall d | d in decisions ensures CheckDecision(d, m, session, known).None? {
        assert d == decisions[|decisions| - 1] || d in decisions[..|decisions| - 1];
      }
    }
  }

  /** The decisions of a move: the update, then only extensions and conflicts. */
  lemma MoveShape(aggregate: Aggregate, previous: Span, moved: TimeInterval)
    requires MoveDecisions(aggregate, previous, moved).Ok?
    ensures var ds := MoveDecisions(aggregate, previous, moved).value;
      && ds != [] && ds[0] == UpdateSession(aggregate.changedId, previous, moved)
      && forall d | d in ds[1..] :: !d.UpdateSession? && !d.MarkMissing?
  {
    hide ProjectedIntervals, LatestEnd, NeighbourConflicts;
    var projected := ProjectedIntervals(aggregate, moved);
    ConflictsOnly(projected);
    var ds := MoveDecisions(aggregate, previous, moved).value;
    var extension := if aggregate.deadline.None? || LatestEnd(projected) > aggregate.deadline.value
                     then [ExtendDeadline(LatestEnd(projected))] else [];
    assert ds[1..] == extension + MoveConflicts(aggregate, moved);
  }

  /** Applying a move's decisions puts the session at the new interval and leaves the mapping's status alone. */
  lemma MoveApplied(e: Effects, ds: seq<Decision>, change: nat, m: string, previous: Span, moved: TimeInterval)
    requires ds != [] && ds[0] == UpdateSession(m, previous, moved)
    requires forall d | d in ds[1..] :: !d.UpdateSession? && !d.MarkMissing?
    ensures ApplyAll(e, ds, change).session == e.session.(span := moved, minutes := moved.DurationMinutes())
    ensures ApplyAll(e, ds, change).status == e.status
  {
    assert ds == [ds[0]] + ds[1..];
    ApplyConcat(e, [ds[0]], ds[1..], change);
    assert [ds[0]][..0] == [];
    assert ApplyAll(e, [ds[0]], change) == ApplyDecision(ApplyAll(e, [], change), ds[0], change);
    ConflictsKeepSession(ApplyAll(e, [ds[0]], change), ds[1..], change);
  }

  /**
    Processing a logged change: a move takes the session from the change's old interval, where
    it must be, to its new one, of positive whole minutes; anything else leaves it. Among
    present snapshots the mapping's status does not change.
   */
  lemma ProcessEffect(s: Store, i: nat, info: PlanInfo)
    requires i < |s.changes| && Decide(s, i, info).Ok? && Logged(s.changes[i])
    ensures var c := s.changes[i];
      var e := ApplyAll(EffectsOf(s, c.mapping), Decide(s, i, info).value, i);
      && (BothPresent(c) ==> e.status == s.mappings[c.mapping].status)
      && if IsMove(c) then
           && s.sessions[c.mapping].span == Shown(c.old_) && e.session.span == Shown(c.new_)
           && e.session.minutes * MINUTE == Shown(c.new_).end - Shown(c.new_).start > 0
         else e.session == s.sessions[c.mapping]
  {
    hide MoveDecisions, AggregateOf, FirstError;
    var c := s.changes[i];
    var aggregate := AggregateOf(s, c.mapping, info);
    AggregateChanged(s, c.mapping, info);
    var ds := Decide(s, i, info).value;
    var e := EffectsOf(s, c.mapping);
    if IsMove(c) {
      MoveShape(aggregate, Shown(c.old_), Shown(c.new_));
      FirstErrorCovers(ds, c.mapping, s.sessions[c.mapping], KnownIds(aggregate));
      assert ds[0] in ds;
      MoveApplied(e, ds, i, c.mapping, Shown(c.old_), Shown(c.new_));
    } else {
      assert forall d | d in ds :: !d.UpdateSession?;
      NoUpdateKeepsSession(e, ds, i);
      if BothPresent(c) {
        assert ds == [NoAction] || ds == [Unsupported];
        assert forall d | d in ds :: d == ds[0];
        ConflictsKeepSession(e, ds, i);
      }
    }
  }

  lemma {:induction false} NoUpdateKeepsSession(e: Effects, decisions: seq<Decision>, change: nat)
    requires forall d | d in decisions :: !d.UpdateSession?
    ensures ApplyAll(e, decisions, change).session == e.session
  {
    if decisions != [] {
      assert forall d | d in decisions[..|decisions| - 1] :: d in decisions;
      assert decisions[|decisions| - 1] in decisions;
      NoUpdateKeepsSession(e, decisions[..|decisions| - 1], change);
    }
  }

  lemma AggregateChanged(s: Store, m: string, info: PlanInfo)
    ensures AggregateOf(s, m, info).changedId == m && AggregateOf(s, m, info).deadline == s.deadline
  {
  }

  lemma DecidedIsMapped(s: Store, i: nat, info: PlanInfo)
    requires i < |s.changes|
    ensures Decide(s, i, info).Ok? ==>
      s.changes[i].mapping in s.mappings && s.changes[i].mapping in s.sessions
      && s.changes[i].status != Processed
  {
  }

  lemma ProcessKeepsBalance(s: Store, n: nat, m: string, i: nat, info: PlanInfo)
    requires Balanced(s, n, m, info) && Process(s, i, info).Ok?
    ensures Balanced(Process(s, i, info).value, n, m, info)
  {
    hide Decide, ApplyAll, Total, ChangeKind;
    var c := s.changes[i];
    DecidedIsMapped(s, i, info);
    if c.status != Processed {
      var e := ApplyAll(EffectsOf(s, c.mapping), Decide(s, i, info).value, i);
      if c.mapping == m {
        assert n <= i;
        ProcessEffect(s, i, info);
        CommitOwn(s, n, m, i, e, info);
      } else {
        CommitOther(s, n, m, i, e, info);
      }
    }
  }

  lemma CommitOwn(s: Store, n: nat, m: string, i: nat, e: Effects, info: PlanInfo)
    requires Balanced(s, n, m, info) && n <= i < |s.changes|
    requires s.changes[i].mapping == m && Unprocessed(s.changes[i])
    requires if IsMove(s.changes[i])
             then s.sessions[m].span == Shown(s.changes[i].old_) && e.session.span == Shown(s.changes[i].new_)
             else e.session == s.sessions[m]
    ensures Balanced(Commit(s, i, e), n, m, info)
  {
    hide Total, ChangeKind;
    var next := Commit(s, i, e);
    var done := s.changes[i].(status := Processed, actions := e.actions);
    assert s.mappings[m].snapshot.Some?;
    assert LastSnapshot(next, m, info) == LastSnapshot(s, m, info);
    forall v ensures Indicator(next.sessions[m].span == v) + Total(next.changes, n, m, v, Open) ==
                     Indicator(Place(LastSnapshot(next, m, info)) == Some(v))
    {
      TotalUpdate(s.changes, i, done, n, m, v, Open);
      OpenEdge(m, v, s.changes[i]);
      OpenEdge(m, v, done);
    }
  }

  lemma CommitOther(s: Store, n: nat, m: string, i: nat, e: Effects, info: PlanInfo)
    requires Balanced(s, n, m, info) && i < |s.changes|
    requires s.changes[i].mapping != m && s.changes[i].mapping in s.mappings
    ensures Balanced(Commit(s, i, e), n, m, info)
  {
    hide Total, ChangeKind;
    var next := Commit(s, i, e);
    var done := s.changes[i].(status := Processed, actions := e.actions);
    assert LastSnapshot(next, m, info) == LastSnapshot(s, m, info);
    forall v ensures Total(next.changes, n, m, v, Open) == Total(s.changes, n, m, v, Open) {
      TotalUpdate(s.changes, i, done, n, m, v, Open);
    }
  }

  // ----- runs -----

  datatype Step = PullStep(target: string, fetch: Fetch) | ProcessStep(change: nat)

  /** A step of the system: an error leaves the state as it was. */
  function Next(s: Store, step: Step, info: PlanInfo): Store {
    match step
    case PullStep(target, fetch) => Pull(s, target, fetch, info)
    case ProcessStep(i) => if Process(s, i, info).Ok? then Process(s, i, info).value else s
  }

  function Run(s: Store, steps: seq<Step>, info: PlanInfo): Store {
    if steps == [] then s else Next(Run(s, steps[..|steps| - 1], info), steps[|steps| - 1], info)
  }

  /** Over any run at all, deletions and cancellations included. */
  lemma {:induction false} RunKeepsBalance(s: Store, steps: seq<Step>, n: nat, m: string, info: PlanInfo)
    requires Balanced(s, n, m, info)
    ensures Balanced(Run(s, steps, info), n, m, info)
  {
    hide Pull, Process, Balanced;
    if steps != [] {
      var last := steps[|steps| - 1];
      RunKeepsBalance(s, steps[..|steps| - 1], n, m, info);
      var mid := Run(s, steps[..|steps| - 1], info);
      match last {
        case PullStep(target, fetch) => PullKeepsBalance(mid, n, m, target, fetch, info);
        case ProcessStep(i) =>
          if Process(mid, i, info).Ok? {
            ProcessKeepsBalance(mid, n, m, i, info);
          }
      }
    }
  }

  // ----- when session and snapshot agree -----

  /** In every state reached: they agree exactly when the open edges cancel out at every interval. */
  lemma {:induction false} AgreementIff(s: Store, steps: seq<Step>, m: string, info: PlanInfo)
    requires Agrees(s, m, info)
    ensures var end := Run(s, steps, info);
      && m in end.mappings && m in end.sessions && |s.changes| <= |end.changes|
      && (InAgreement(end, m, info) <==> forall v :: Total(end.changes, |s.changes|, m, v, Open) == 0)
  {
    hide Run, Agrees, Total;
    AgreeingIsBalanced(s, m, info);
    RunKeepsBalance(s, steps, |s.changes|, m, info);
    var end := Run(s, steps, info);
    var v := end.sessions[m].span;
    assert Indicator(v == v) + Total(end.changes, |s.changes|, m, v, Open) ==
           Indicator(Place(LastSnapshot(end, m, info)) == Some(v));
  }

  /**
    The exact result of processing everything. Start where session and snapshot agree. After
    any run of pulls and processing steps, in any order, with deletions, cancellations and
    re-creations, once every change of the mapping is processed the session stands where the
    last snapshot does if and only if the log re-created the event at each interval as often
    as it deleted it there.
   */
  lemma {:induction false} ProcessedAgreesIff(s: Store, steps: seq<Step>, m: string, info: PlanInfo)
    requires Agrees(s, m, info)
    ensures var end := Run(s, steps, info);
      && m in end.mappings && m in end.sessions && |s.changes| <= |end.changes|
      && (AllProcessed(end.changes, m) ==>
            (InAgreement(end, m, info) <==> forall v :: Lost(end.changes, |s.changes|, m, v) == 0))
  {
    hide Run, Agrees, Total, InAgreement, IsMove;
    AgreementIff(s, steps, m, info);
    var end := Run(s, steps, info);
    if AllProcessed(end.changes, m) {
      forall v ensures Lost(end.changes, |s.changes|, m, v) == Total(end.changes, |s.changes|, m, v, Open) {
        ProcessedIsLost(end.changes, |s.changes|, m, v);
      }
    }
  }

  lemma ProcessedIsLost(changes: seq<Change>, n: nat, m: string, v: Span)
    requires n <= |changes| && AllProcessed(changes, m)
    ensures Lost(changes, n, m, v) == Total(changes, n, m, v, Open)
  {
    hide Total, IsMove;
    forall j | n <= j < |changes| && changes[j].mapping == m ensures Open(changes[j]) <==> NoMove(changes[j]) {
      assert changes[j] in changes;
    }
    TotalsAgree(changes, n, m, v, Open, NoMove);
  }

  // ----- an event that never goes missing -----

  /** The provider event of the mapping is never reported deleted or cancelled. */
  predicate NeverMissing(steps: seq<Step>, m: string) {
    forall step | step in steps :: step.PullStep? && step.target == m ==>
      (step.fetch.Fetched? && step.fetch.current.Present()) || step.fetch.ProviderError?
  }

  /** The snapshot is present, and so is everything logged from n on; once something is, the mapping is live. */
  ghost predicate Present(s: Store, n: nat, m: string, info: PlanInfo) {
    && m in s.mappings && m in s.sessions && n <= |s.changes|
    && LastSnapshot(s, m, info).Present()
    && forall j | n <= j < |s.changes| && s.changes[j].mapping == m ::
         BothPresent(s.changes[j]) && s.mappings[m].status != ExternallyDeleted
  }

  lemma RecordStaysPresent(s: Store, n: nat, m: string, target: string, current: Snapshot, info: PlanInfo)
    requires Present(s, n, m, info) && target in s.mappings && target in s.sessions
    requires target == m ==> current.Present()
    ensures Present(Record(s, target, current, info), n, m, info)
  {
    hide SyncedWith, ChangeKind;
    SyncedWithSnapshot(s.mappings[target], current);
  }

  lemma PullStaysPresent(s: Store, n: nat, m: string, target: string, fetch: Fetch, info: PlanInfo)
    requires Present(s, n, m, info)
    requires target == m ==> (fetch.Fetched? && fetch.current.Present()) || fetch.ProviderError?
    ensures Present(Pull(s, target, fetch, info), n, m, info)
  {
    hide Record;
    if target in s.mappings && target in s.sessions {
      match fetch {
        case EventNotFound =>
          RecordStaysPresent(s, n, m, target, NotFoundSnapshot(s.mappings[target]), info);
        case ProviderError =>
        case Fetched(current) =>
          if !OtherIdentity(s.mappings[target], current) {
            RecordStaysPresent(s, n, m, target, current, info);
          }
      }
    }
  }

  lemma ProcessStaysPresent(s: Store, n: nat, m: string, i: nat, info: PlanInfo)
    requires Present(s, n, m, info) && Balanced(s, n, m, info) && Process(s, i, info).Ok?
    ensures Present(Process(s, i, info).value, n, m, info)
  {
    hide Decide, ApplyAll, Total, ChangeKind, IsMove;
    DecidedIsMapped(s, i, info);
    if s.changes[i].status != Processed && s.changes[i].mapping == m {
      ProcessEffect(s, i, info);
    }
  }

  lemma {:induction false} RunStaysPresent(s: Store, steps: seq<Step>, n: nat, m: string, info: PlanInfo)
    requires Present(s, n, m, info) && Balanced(s, n, m, info) && NeverMissing(steps, m)
    ensures Present(Run(s, steps, info), n, m, info)
  {
    hide Pull, Process, Balanced, Present;
    if steps != [] {
      var init, last := steps[..|steps| - 1], steps[|steps| - 1];
      assert forall step | step in init :: step in steps;
      assert last in steps;
      RunStaysPresent(s, init, n, m, info);
      RunKeepsBalance(s, init, n, m, info);
      var mid := Run(s, init, info);
      match last {
        case PullStep(target, fetch) => PullStaysPresent(mid, n, m, target, fetch, info);
        case ProcessStep(i) =>
          if Process(mid, i, info).Ok? {
            ProcessStaysPresent(mid, n, m, i, info);
          }
      }
    }
  }

  /** A move is stale when the session is no longer where the move left from. */
  predicate StaleMove(c: Change, s: Store, m: string)
    requires m in s.sessions
  {
    Place(c.old_) != Some(s.sessions[m].span)
  }

  predicate AllMovesStale(s: Store, m: string)
    requires m in s.sessions
  {
    forall c | c in s.changes :: c.mapping == m && Unprocessed(c) && IsMove(c) ==> StaleMove(c, s, m)
  }

  /** When every pending move is stale, the session is already where the snapshot is. */
  lemma StuckMeansConverged(s: Store, n: nat, m: string, info: PlanInfo)
    requires Balanced(s, n, m, info) && Present(s, n, m, info) && AllMovesStale(s, m)
    ensures InAgreement(s, m, info)
  {
    hide ChangeKind;
    var v := s.sessions[m].span;
    forall j | n <= j < |s.changes| ensures EdgeIf(m, v, Open)(s.changes[j]) >= 0 {
      if s.changes[j].mapping == m {
        assert s.changes[j] in s.changes;
        PresentIsMoveOrUpdate(s.changes[j]);
        OpenEdge(m, v, s.changes[j]);
      }
    }
    SumNonNegative(s.changes[n..], EdgeIf(m, v, Open));
    assert Indicator(v == v) + Total(s.changes, n, m, v, Open) ==
           Indicator(Place(LastSnapshot(s, m, info)) == Some(v));
  }

  lemma StartsPresent(s: Store, steps: seq<Step>, m: string, info: PlanInfo)
    requires Agrees(s, m, info) && NeverMissing(steps, m)
    ensures Balanced(Run(s, steps, info), |s.changes|, m, info)
    ensures Present(Run(s, steps, info), |s.changes|, m, info)
  {
    hide Run, NeverMissing;
    AgreeingIsBalanced(s, m, info);
    RunKeepsBalance(s, steps, |s.changes|, m, info);
    RunStaysPresent(s, steps, |s.changes|, m, info);
  }

  /**
    Convergence. Start where session and snapshot agree, and let the provider event never go
    missing. After any run of pulls and processing steps, in any order and interleaved with
    those of other sessions, as soon as every pending move of the mapping is stale (in
    particular, once all are processed) the session stands where the last recorded snapshot
    does.
   */
  lemma {:induction false} ProcessingConverges(s: Store, steps: seq<Step>, m: string, info: PlanInfo)
    requires Agrees(s, m, info) && NeverMissing(steps, m)
    ensures var end := Run(s, steps, info);
      && m in end.sessions && m in end.mappings
      && (AllMovesStale(end, m) ==> InAgreement(end, m, info))
  {
    hide Run, Agrees, Balanced, AllMovesStale, InAgreement;
    StartsPresent(s, steps, m, info);
    var end := Run(s, steps, info);
    if AllMovesStale(end, m) {
      StuckMeansConverged(end, |s.changes|, m, info);
    }
  }

  // ----- at most once -----

  /** A processed change stays processed, with its stored actions, and processing it again changes nothing. */
  lemma {:induction false} ProcessedForGood(s: Store, steps: seq<Step>, i: nat, info: PlanInfo)
    requires i < |s.changes| && s.changes[i].status == Processed
    requires s.changes[i].mapping in s.mappings && s.changes[i].mapping in s.sessions
    ensures var end := Run(s, steps, info);
      && i < |end.changes| && end.changes[i] == s.changes[i]
      && s.mappings.Keys <= end.mappings.Keys && s.sessions.Keys <= end.sessions.Keys
      && Process(end, i, info) == Ok(end)
  {
    hide Decide, ApplyAll, ChangeKind;
    if steps != [] {
      ProcessedForGood(s, steps[..|steps| - 1], i, info);
    }
  }

  /** A stale move changes nothing. */
  lemma StaleChangesNothing(s: Store, i: nat, info: PlanInfo)
    requires i < |s.changes| && Logged(s.changes[i]) && IsMove(s.changes[i])
    requires s.changes[i].mapping in s.sessions && StaleMove(s.changes[i], s, s.changes[i].mapping)
    requires s.changes[i].status != Processed
    ensures Process(s, i, info).Err? && Next(s, ProcessStep(i), info) == s
  {
    hide MoveDecisions, AggregateOf, FirstError;
    if Decide(s, i, info).Ok? {
      ProcessEffect(s, i, info);
    }
  }
}
