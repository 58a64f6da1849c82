/**
  What a pull leaves of a mapping, and which sessions a move takes into account: every mapped
  session but those whose event is marked missing. A missing event stays left out until a pull
  finds it again, or fails.
 */
module SyncMissing {
  import opened Prelude
  import opened Sorting
  import opened Intervals
  import opened Policy
  import opened Sync
  import opened SyncConvergence
  import SyncOrder

  // ----- what a pull leaves -----

  /** The pull found nothing out: the provider failed, or answered with another event. */
  predicate FailedPull(mapping: Mapping, fetch: Fetch) {
    || fetch.ProviderError?
    || (fetch.Fetched? && (fetch.current.eventId != mapping.eventId || fetch.current.calendarId != mapping.calendarId))
  }

  /** What a pull that does not fail found: the event, or that there is none. */
  function Found(mapping: Mapping, fetch: Fetch): (s: Snapshot)
    requires !FailedPull(mapping, fetch)
    ensures s.eventId == mapping.eventId && s.calendarId == mapping.calendarId
    ensures fetch.EventNotFound? ==> !s.exists_ && !s.Present() && s.start.None? && s.end.None? && s.etag.None?
  {
    match fetch
    case Fetched(current) => current
    case EventNotFound =>
      Snapshot(mapping.eventId, mapping.calendarId, false, false, None, None, None, None, None, Some("not_found"))
  }

  /** The same identity, place in time, zone and presence: no difference that counts. */
  predicate LooksLike(a: Snapshot, b: Snapshot) {
    && a.eventId == b.eventId && a.calendarId == b.calendarId && a.exists_ == b.exists_
    && a.cancelled == b.cancelled && a.start == b.start && a.end == b.end && a.timezone == b.timezone
  }

  /** The log already has this change of the mapping. */
  ghost predicate Repeats(changes: seq<Change>, m: string, from: Snapshot, to: Snapshot) {
    !LooksLike(from, to) && exists c | c in changes :: c.mapping == m && LooksLike(c.old_, from) && c.new_ == to
  }

  /** The mapping follows what was found: its snapshot, and missing exactly when no event is there. */
  predicate Follows(before: Mapping, after: Mapping, found: Snapshot) {
    && after.eventId == before.eventId && after.calendarId == before.calendarId
    && after.snapshot == Some(found) && after.etag == found.etag && after.updatedAt == found.updatedAt
    && (after.status == ExternallyDeleted <==> !found.exists_ || found.cancelled)
    && (after.status == Synced <==> found.exists_ && !found.cancelled)
  }

  /** The event was there and has gone, or was not and has come, or its start or end is another instant, or else. */
  predicate KindFits(kind: Kind, from: Snapshot, to: Snapshot) {
    && (kind == Deleted <==> from.exists_ && !to.Present())
    && (kind == Created <==> kind != Deleted && !from.Present() && to.exists_)
    && (kind == Moved <==> kind != Deleted && kind != Created &&
                           (Instant(from.start) != Instant(to.start) || Instant(from.end) != Instant(to.end)))
  }

  /** One pending change is appended when something that counts differs, else none. */
  predicate Appends(before: seq<Change>, after: seq<Change>, m: string, from: Snapshot, to: Snapshot) {
    if LooksLike(from, to) then after == before
    else
      && |after| == |before| + 1 && after[..|before|] == before
      && var c := after[|before|];
         && c.mapping == m && c.old_ == from && c.new_ == to && c.status == Pending && c.actions == []
         && KindFits(c.kind, from, to)
  }

  lemma VisibleIsLooks(a: Snapshot, b: Snapshot)
    ensures a.Visible() == b.Visible() <==> LooksLike(a, b)
  {
  }

  lemma RepeatsIff(changes: seq<Change>, m: string, from: Snapshot, to: Snapshot)
    requires !LooksLike(from, to)
    ensures AlreadyRecorded(changes, m, from, to) <==> Repeats(changes, m, from, to)
  {
    forall c: Change ensures SameTransition(c, m, from, to) <==>
                             c.mapping == m && LooksLike(c.old_, from) && c.new_ == to
    {
      VisibleIsLooks(c.old_, from);
    }
  }

  lemma KindIsFit(from: Snapshot, to: Snapshot)
    ensures ChangeKind(from, to).None? <==> LooksLike(from, to)
    ensures ChangeKind(from, to).Some? ==> KindFits(ChangeKind(from, to).value, from, to)
  {
  }

  /**
    What a pull of a known mapping leaves. When it fails, the mapping is marked failed and keeps
    its snapshot, and nothing is logged. When the log already has the change found, nothing is
    stored at all. Otherwise the mapping follows what was found, and the change is logged.
   */
  ghost predicate PullLeaves(s: Store, next: Store, m: string, fetch: Fetch, info: PlanInfo)
    requires m in s.mappings && m in s.sessions
  {
    var from := LastSnapshot(s, m, info);
    && next.mappings.Keys == s.mappings.Keys
    && next == s.(mappings := s.mappings[m := next.mappings[m]], changes := next.changes)
    && if FailedPull(s.mappings[m], fetch) then
         next.mappings[m] == s.mappings[m].(status := SyncFailed) && next.changes == s.changes
       else
         var found := Found(s.mappings[m], fetch);
         if Repeats(s.changes, m, from, found) then next == s
         else Follows(s.mappings[m], next.mappings[m], found) && Appends(s.changes, next.changes, m, from, found)
  }

  lemma PullIsRecorded(s: Store, m: string, fetch: Fetch, info: PlanInfo)
    requires m in s.mappings && m in s.sessions
    ensures PullLeaves(s, Pull(s, m, fetch, info), m, fetch, info)
  {
    hide ChangeKind, AlreadyRecorded, Baseline, KindFits;
    if !FailedPull(s.mappings[m], fetch) {
      var from, found := LastSnapshot(s, m, info), Found(s.mappings[m], fetch);
      KindIsFit(from, found);
      if !LooksLike(from, found) {
        RepeatsIff(s.changes, m, from, found);
      }
    }
  }

  /** The first pull of an event as it was made for the session, in UTC and the plan's zone, logs nothing. */
  lemma UntouchedIsQuiet(s: Store, m: string, current: Snapshot, info: PlanInfo)
    requires m in s.mappings && m in s.sessions
    requires s.mappings[m].snapshot.None? && s.mappings[m].status != ExternallyDeleted
    requires current.eventId == s.mappings[m].eventId && current.calendarId == s.mappings[m].calendarId
    requires current.Present() && current.timezone == Some(info.timezone)
    requires current.start == Some(Stamp(s.sessions[m].span.start, 0))
    requires current.end == Some(Stamp(s.sessions[m].span.end, 0))
    ensures var next := Pull(s, m, Fetched(current), info);
      next.changes == s.changes && m in next.mappings && next.mappings[m].snapshot == Some(current)
  {
  }

  // ----- who is taken along by a move -----

  /** Mapped, and not marked missing. */
  predicate Taken(s: Store, m: string) {
    m in s.sessions && m in s.mappings && s.mappings[m].status != ExternallyDeleted
  }

  /** Where a session is taken to be: the one moved there, the others where the calendar last showed them. */
  function Along(s: Store, m: string, changed: string, moved: TimeInterval): TimeInterval
    requires Taken(s, m)
  {
    if m == changed then moved
    else if s.mappings[m].snapshot.Some? && s.mappings[m].snapshot.value.Present() then
      Shown(s.mappings[m].snapshot.value)
    else s.sessions[m].span
  }

  /** Earlier start first, then earlier end, then lower order. */
  predicate Ordered(a: Projected, b: Projected) {
    || a.span.start < b.span.start
    || (a.span.start == b.span.start &&
        (a.span.end < b.span.end || (a.span.end == b.span.end && a.session.order <= b.session.order)))
  }

  predicate IsAlong(p: Projected, s: Store, m: string, changed: string, moved: TimeInterval) {
    && Taken(s, m) && p.session.id == m && p.session.order == s.sessions[m].order
    && p.span == Along(s, m, changed, moved)
  }

  /** Exactly the plan's sessions that are taken along, where they are, in order of time. */
  ghost predicate IsProjection(
    projected: seq<Projected>, s: Store, changed: string, moved: TimeInterval, info: PlanInfo)
  {
    && (forall p | p in projected :: p.session.id in info.order && IsAlong(p, s, p.session.id, changed, moved))
    && (forall m | m in info.order && Taken(s, m) :: exists p | p in projected :: p.session.id == m)
    && (forall i, j :: 0 <= i < j < |projected| ==> Ordered(projected[i], projected[j]))
  }

  lemma {:induction false} PolicySessionsAre(s: Store, order: seq<string>)
    ensures forall q | q in PolicySessions(s, order) ::
      q.id in order && q.id in s.sessions && q == PolicySessionOf(s, q.id)
    ensures forall m | m in order && m in s.sessions :: PolicySessionOf(s, m) in PolicySessions(s, order)
  {
    hide PolicySessionOf;
    if order != [] {
      var init, last := order[..|order| - 1], order[|order| - 1];
      PolicySessionsAre(s, init);
      if last in s.sessions {
        PolicyId(s, last);
      }
      assert last in order && forall m | m in init :: m in order;
      forall m | m in order && m in s.sessions ensures PolicySessionOf(s, m) in PolicySessions(s, order) {
        assert m == last || m in init;
      }
    }
  }

  lemma PolicyId(s: Store, m: string)
    requires m in s.sessions
    ensures PolicySessionOf(s, m).id == m
  {
  }

  lemma ProjectedSession(s: Store, m: string, changed: string, moved: TimeInterval)
    requires m in s.sessions
    ensures Projects(PolicySessionOf(s, m)) <==> Taken(s, m)
    ensures Taken(s, m) ==> IsAlong(ProjectOne(PolicySessionOf(s, m), changed, moved), s, m, changed, moved)
  {
  }

  lemma {:induction false} ProjectAllAre(sessions: seq<PolicySession>, changed: string, moved: TimeInterval)
    ensures forall p | p in ProjectAll(sessions, changed, moved) ::
      p.session in sessions && Projects(p.session) && p == ProjectOne(p.session, changed, moved)
  {
    if sessions != [] {
      ProjectAllAre(sessions[..|sessions| - 1], changed, moved);
    }
  }

  lemma ProjectionIs(s: Store, changed: string, moved: TimeInterval, info: PlanInfo)
    ensures IsProjection(ProjectedIntervals(AggregateOf(s, changed, info), moved), s, changed, moved, info)
  {
    hide Taken, Along, Projects, ProjectOne, IsAlong;
    var sessions := PolicySessions(s, info.order);
    var all := ProjectAll(sessions, changed, moved);
    var projected := ProjectedIntervals(AggregateOf(s, changed, info), moved);
    PolicySessionsAre(s, info.order);
    ProjectAllAre(sessions, changed, moved);
    SyncOrder.ProjectAllMembers(sessions, changed, moved);
    SameElements(projected, all);
    forall p | p in projected
      ensures p.session.id in info.order && IsAlong(p, s, p.session.id, changed, moved)
    {
      ProjectedSession(s, p.session.id, changed, moved);
    }
    forall m | m in info.order && Taken(s, m) ensures exists p | p in projected :: p.session.id == m {
      TakenIsStored(s, m);
      ProjectedSession(s, m, changed, moved);
      PolicyId(s, m);
      ProjectedKeepsSession(PolicySessionOf(s, m), changed, moved);
      assert ProjectOne(PolicySessionOf(s, m), changed, moved) in projected;
    }
    ProjectedSorted(AggregateOf(s, changed, info), moved);
    forall i, j | 0 <= i < j < |projected| ensures Ordered(projected[i], projected[j]) {
      assert ProjectedLe(projected[i], projected[j]);
    }
  }

  lemma TakenIsStored(s: Store, m: string)
    requires Taken(s, m)
    ensures m in s.sessions
  {
  }

  lemma ProjectedKeepsSession(q: PolicySession, changed: string, moved: TimeInterval)
    ensures ProjectOne(q, changed, moved).session == q
  {
  }

  // ----- how long a missing event is left out -----

  /** Marked missing, so left out of every move. */
  predicate Out(s: Store, m: string) {
    m in s.mappings && s.mappings[m].status == ExternallyDeleted
  }

  /** The step is a pull of m that fails, or that finds the event, unless the log has that change. */
  ghost predicate BringsBack(s: Store, step: Step, m: string, info: PlanInfo) {
    && step.PullStep? && step.target == m && m in s.mappings && m in s.sessions
    && (FailedPull(s.mappings[m], step.fetch) ||
        (step.fetch.Fetched? && step.fetch.current.Present()
         && !Repeats(s.changes, m, LastSnapshot(s, m, info), step.fetch.current)))
  }

  /** Only such a step ends it. */
  lemma OutUntilBack(s: Store, step: Step, m: string, info: PlanInfo)
    requires Out(s, m)
    ensures Out(Next(s, step, info), m) <==> !BringsBack(s, step, m, info)
  {
    hide Pull, Decide, ApplyAll, Repeats, Appends, LastSnapshot;
    match step {
      case PullStep(target, fetch) =>
        if target in s.mappings && target in s.sessions {
          PullIsRecorded(s, target, fetch, info);
        } else {
          UnknownPull(s, target, fetch, info);
        }
      case ProcessStep(i) =>
        if Process(s, i, info).Ok? {
          DecidedIsMapped(s, i, info);
          if Decide(s, i, info).Ok? && s.changes[i].mapping == m {
            StaysMissing(s, i, info);
          }
        }
    }
  }

  lemma UnknownPull(s: Store, target: string, fetch: Fetch, info: PlanInfo)
    requires target !in s.mappings || target !in s.sessions
    ensures Pull(s, target, fetch, info) == s
  {
  }

  lemma {:induction false} DecisionsKeepMissing(e: Effects, decisions: seq<Decision>, change: nat)
    requires e.status == ExternallyDeleted
    ensures ApplyAll(e, decisions, change).status == ExternallyDeleted
  {
    if decisions != [] {
      DecisionsKeepMissing(e, decisions[..|decisions| - 1], change);
    }
  }

  lemma StaysMissing(s: Store, i: nat, info: PlanInfo)
    requires i < |s.changes| && Decide(s, i, info).Ok?
    requires s.changes[i].mapping in s.sessions && Out(s, s.changes[i].mapping)
    ensures ApplyAll(EffectsOf(s, s.changes[i].mapping), Decide(s, i, info).value, i).status == ExternallyDeleted
  {
    hide Decide, ApplyAll;
    DecisionsKeepMissing(EffectsOf(s, s.changes[i].mapping), Decide(s, i, info).value, i);
  }

  /** Over any run in which no step brings it back, no move takes the session along. */
  lemma {:induction false} MissingStaysOut(s: Store, steps: seq<Step>, m: string, info: PlanInfo)
    requires Out(s, m)
    requires forall k | 0 <= k < |steps| :: !BringsBack(Run(s, steps[..k], info), steps[k], m, info)
    ensures Out(Run(s, steps, info), m)
    ensures forall changed, moved ::
      forall p | p in ProjectedIntervals(AggregateOf(Run(s, steps, info), changed, info), moved) :: p.session.id != m
  {
    hide Next, BringsBack, ProjectedIntervals;
    if steps != [] {
      var n := |steps| - 1;
      forall k | 0 <= k < n ensures !BringsBack(Run(s, steps[..n][..k], info), steps[..n][k], m, info) {
        assert steps[..n][..k] == steps[..k];
      }
      MissingStaysOut(s, steps[..n], m, info);
      OutUntilBack(Run(s, steps[..n], info), steps[n], m, info);
    }
    var end := Run(s, steps, info);
    forall changed: string, moved: TimeInterval
      ensures forall p | p in ProjectedIntervals(AggregateOf(end, changed, info), moved) :: p.session.id != m
    {
      ProjectionIs(end, changed, moved, info);
    }
  }
}
