/**
  Applying a plan, over any run of attempts and retries: what the final status means, and
  that a session never has more than one event in the calendar.
 */
module ApplyRuns {
  import opened Sorting
  import opened Plans
  import opened PlanRuns

  // ----- the status tells what is mapped -----

  predicate IsMapped(s: PlanSession) {
    s.mapping.Some?
  }

  predicate AllMapped(p: Plan) {
    forall s | s in p.sessions :: IsMapped(s)
  }

  predicate SomeMapped(p: Plan) {
    exists s | s in p.sessions :: IsMapped(s)
  }

  lemma {:induction false} CountMapped(sessions: seq<PlanSession>)
    ensures 0 <= SumBy(sessions, Mapped) <= |sessions|
    ensures SumBy(sessions, Mapped) == |sessions| <==> forall s | s in sessions :: IsMapped(s)
    ensures SumBy(sessions, Mapped) == 0 <==> !exists s | s in sessions :: IsMapped(s)
  {
    if sessions != [] {
      var init, last := sessions[..|sessions| - 1], sessions[|sessions| - 1];
      CountMapped(init);
      assert last in sessions && forall s | s in init :: s in sessions;
      assert forall s | s in sessions :: s == last || s in init;
    }
  }

  /** Applied means all sessions are mapped, partially applied some but not all, failed none. */
  ghost predicate StatusFits(p: Plan) {
    && (p.status == Applied ==> AllMapped(p))
    && (p.status == PartiallyApplied ==> SomeMapped(p) && !AllMapped(p))
    && (p.status == Failed ==> !SomeMapped(p))
  }

  /** A completed apply leaves exactly the status that fits, for a plan with sessions. */
  lemma FinishIsExact(st: Store, i: nat)
    requires ApplyFinish(st, i).Ok? && st.plans[i].sessions != []
    ensures var p := ApplyFinish(st, i).value.plans[i];
      && p.sessions == st.plans[i].sessions
      && (p.status == Applied <==> AllMapped(p))
      && (p.status == PartiallyApplied <==> SomeMapped(p) && !AllMapped(p))
      && (p.status == Failed <==> !SomeMapped(p))
  {
    CountMapped(st.plans[i].sessions);
    assert st.plans[i].sessions[0] in st.plans[i].sessions;
  }

  /** Only an attempt changes mappings, and only of a plan being applied; only the finish sets an applied status. */
  lemma NextFits(st: Store, tasks: Tasks, step: Step, i: nat)
    requires i < |st.plans| && StatusFits(st.plans[i])
    ensures i < |Next(st, tasks, step).plans| && StatusFits(Next(st, tasks, step).plans[i])
  {
    hide Create, BacklogError, UpdatedEntry, EntryValid, TargetsResolve, AllMapped, SomeMapped, TargetsOf;
    NextEvolves(st, tasks, step);
    match step {
      case CreateStep(req) =>
        if Create(st, tasks, req).Ok? {
          CreateFits(st, tasks, req, i);
        }
      case ConfirmStep(j, now) =>
      case RevalidateStep(j, outcome) =>
      case ObsoleteStep(j) =>
      case BeginStep(j, usable) =>
      case AttemptStep(j, k, attempt) =>
      case FinishStep(j) =>
        if ApplyFinish(st, j).Ok? && i == j {
          FinishFits(st, i);
        }
      case MoveStep(j, k, minutes) =>
        if MoveSession(st, j, k, minutes).Ok? && i == j {
          MoveFits(st.plans[i], k, minutes);
        }
    }
  }

  lemma MoveFits(p: Plan, k: nat, minutes: int)
    requires k < |p.sessions|
    ensures var q := p.(sessions := p.sessions[k := p.sessions[k].(minutes := minutes)]);
      (AllMapped(p) <==> AllMapped(q)) && (SomeMapped(p) <==> SomeMapped(q))
  {
    var q := p.(sessions := p.sessions[k := p.sessions[k].(minutes := minutes)]);
    CountMapped(p.sessions);
    CountMapped(q.sessions);
    SumByUpdate(p.sessions, k, q.sessions[k], Mapped);
  }

  lemma FinishFits(st: Store, i: nat)
    requires ApplyFinish(st, i).Ok?
    ensures StatusFits(ApplyFinish(st, i).value.plans[i])
  {
    CountMapped(st.plans[i].sessions);
  }

  lemma CreateFits(st: Store, tasks: Tasks, req: Request, i: nat)
    requires i < |st.plans| && StatusFits(st.plans[i]) && Create(st, tasks, req).Ok?
    ensures i < |Create(st, tasks, req).value.0.plans|
    ensures StatusFits(Create(st, tasks, req).value.0.plans[i])
  {
    hide RequestError, NewPlan, AllMapped, SomeMapped;
  }

  ghost predicate AllFit(plans: seq<Plan>) {
    forall i :: 0 <= i < |plans| ==> StatusFits(plans[i])
  }

  lemma NextAllFit(st: Store, tasks: Tasks, step: Step)
    requires AllFit(st.plans)
    ensures AllFit(Next(st, tasks, step).plans)
  {
    hide Next, Create, StatusFits;
    var next := Next(st, tasks, step).plans;
    NextEvolves(st, tasks, step);
    forall i | 0 <= i < |next| ensures StatusFits(next[i]) {
      if i < |st.plans| {
        NextFits(st, tasks, step, i);
      } else {
        OnlyCreateAppends(st, tasks, step);
        NewPlanFits(st, tasks, step.req);
      }
    }
  }

  lemma NewPlanFits(st: Store, tasks: Tasks, req: Request)
    requires Create(st, tasks, req).Ok?
    ensures Next(st, tasks, CreateStep(req)) == Create(st, tasks, req).value.0
    ensures var plans := Create(st, tasks, req).value.0.plans;
      |plans| > |st.plans| ==> StatusFits(plans[|st.plans|])
  {
    hide RequestError, LatestInGroup, WithKey, NewSessions;
  }

  /** In every reachable state, every plan's status tells what is mapped. */
  lemma {:induction false} RunFits(tasks: Tasks, entries: map<string, Entry>, steps: seq<Step>)
    ensures AllFit(Run(Store([], entries, {}), tasks, steps).plans)
  {
    hide Next, StatusFits;
    if steps != [] {
      var init := steps[..|steps| - 1];
      RunFits(tasks, entries, init);
      NextAllFit(Run(Store([], entries, {}), tasks, init), tasks, steps[|steps| - 1]);
    }
  }

  lemma {:induction false} RunKeepsFit(st: Store, tasks: Tasks, steps: seq<Step>)
    requires AllFit(st.plans)
    ensures AllFit(Run(st, tasks, steps).plans)
  {
    hide Next, AllFit;
    if steps != [] {
      RunKeepsFit(st, tasks, steps[..|steps| - 1]);
      NextAllFit(Run(st, tasks, steps[..|steps| - 1]), tasks, steps[|steps| - 1]);
    }
  }

  /** A plan that is partially applied in some reachable state is failed in no later one. */
  lemma {:induction false} PartialNeverFails(
    tasks: Tasks, entries: map<string, Entry>, steps: seq<Step>, later: seq<Step>, i: nat)
    requires var mid := Run(Store([], entries, {}), tasks, steps);
      i < |mid.plans| && mid.plans[i].status == PartiallyApplied
    ensures var end := Run(Run(Store([], entries, {}), tasks, steps), tasks, later);
      i < |end.plans| && end.plans[i].status != Failed
  {
    hide Run;
    var mid := Run(Store([], entries, {}), tasks, steps);
    RunFits(tasks, entries, steps);
    RunKeepsFit(mid, tasks, later);
    RunPersists(mid, tasks, later, i);
    var p, q := mid.plans[i], Run(mid, tasks, later).plans[i];
    var s :| s in p.sessions && IsMapped(s);
    var k :| 0 <= k < |p.sessions| && p.sessions[k] == s;
    assert SessionEvolves(p.sessions[k], q.sessions[k]);
    assert q.sessions[k] in q.sessions;
  }

  // ----- at most one event per session -----

  /** Session k of plan i. */
  predicate SessionAt(plans: seq<Plan>, i: int, k: int, id: string) {
    0 <= i < |plans| && 0 <= k < |plans[i].sessions| && plans[i].sessions[k].id == id
  }

  /** No two sessions share an id. */
  ghost predicate UniqueSessions(plans: seq<Plan>) {
    forall id, i, k, j, l | SessionAt(plans, i, k, id) && SessionAt(plans, j, l, id) :: i == j && k == l
  }

  /** The event is the one a session's stored target prescribes. */
  predicate Prescribed(plans: seq<Plan>, i: int, k: int, e: Event) {
    && SessionAt(plans, i, k, e.eventId)
    && TargetsOf(plans[i].targets, e.eventId) != []
    && e == TargetEvent(plans[i], plans[i].sessions[k])
  }

  ghost predicate EventsPrescribed(st: Store) {
    forall e | e in st.events :: exists i, k :: Prescribed(st.plans, i, k, e)
  }

  /** New sessions get ids of their own: `uuid4`. */
  ghost predicate FreshSessions(st: Store, step: Step) {
    step.CreateStep? ==>
      && (forall a, b | 0 <= a < b < |step.req.sessionIds| :: step.req.sessionIds[a] != step.req.sessionIds[b])
      && (forall i, k, id | SessionAt(st.plans, i, k, id) :: id !in step.req.sessionIds)
  }

  /** Evolving keeps each session where it is, with its targets. */
  lemma EvolvedSessions(a: seq<Plan>, b: seq<Plan>, i: int, k: int, id: string)
    requires StoreEvolves(a, b) && 0 <= i < |a|
    ensures SessionAt(a, i, k, id) <==> SessionAt(b, i, k, id)
    ensures b[i].targets == a[i].targets
  {
    assert Evolves(a[i], b[i]);
    if 0 <= k < |a[i].sessions| {
      assert SessionEvolves(a[i].sessions[k], b[i].sessions[k]);
    }
  }

  lemma NextKeepsSessionsUnique(st: Store, tasks: Tasks, step: Step)
    requires UniqueSessions(st.plans) && FreshSessions(st, step)
    ensures UniqueSessions(Next(st, tasks, step).plans)
  {
    hide Create, Confirm, Revalidate, MarkObsolete, ApplyBegin, ApplySession, ApplyFinish;
    NextEvolves(st, tasks, step);
    var next := Next(st, tasks, step).plans;
    if |next| != |st.plans| {
      OnlyCreateAppends(st, tasks, step);
      AddedSessions(st, tasks, step.req);
    }
    forall id, i, k, j, l | SessionAt(next, i, k, id) && SessionAt(next, j, l, id) ensures i == j && k == l {
      if i < |st.plans| { EvolvedSessions(st.plans, next, i, k, id); }
      if j < |st.plans| { EvolvedSessions(st.plans, next, j, l, id); }
    }
  }

  lemma AddedSessions(st: Store, tasks: Tasks, req: Request)
    requires Create(st, tasks, req).Ok? && |Create(st, tasks, req).value.0.plans| == |st.plans| + 1
    ensures var added := Create(st, tasks, req).value.0.plans[|st.plans|];
      |added.sessions| == |req.sessionIds| &&
      forall k :: 0 <= k < |added.sessions| ==> added.sessions[k].id == req.sessionIds[k]
  {
    hide RequestError, LatestInGroup, WithKey;
  }

  /** A step adds at most the event an attempt prescribes. */
  lemma NextEvents(st: Store, tasks: Tasks, step: Step, e: Event)
    requires e in Next(st, tasks, step).events && e !in st.events
    ensures step.AttemptStep? && Prescribed(st.plans, step.plan, step.session, e)
  {
    hide Create, BacklogError, UpdatedEntry, EntryValid, TargetsResolve, ResultingStatus;
    if step.CreateStep? {
      CreateKeepsEvents(st, tasks, step.req);
    }
  }

  lemma CreateKeepsEvents(st: Store, tasks: Tasks, req: Request)
    requires Create(st, tasks, req).Ok?
    ensures Create(st, tasks, req).value.0.events == st.events
  {
  }

  lemma PrescribedStays(a: seq<Plan>, b: seq<Plan>, i: int, k: int, e: Event)
    requires StoreEvolves(a, b) && Prescribed(a, i, k, e)
    ensures Prescribed(b, i, k, e)
  {
    EvolvedSessions(a, b, i, k, e.eventId);
  }

  lemma NextKeepsEvents(st: Store, tasks: Tasks, step: Step)
    requires EventsPrescribed(st)
    ensures EventsPrescribed(Next(st, tasks, step))
  {
    hide Next, Prescribed;
    NextEvolves(st, tasks, step);
    var next := Next(st, tasks, step);
    forall e | e in next.events ensures exists i, k :: Prescribed(next.plans, i, k, e) {
      if e in st.events {
        var i, k :| Prescribed(st.plans, i, k, e);
        PrescribedStays(st.plans, next.plans, i, k, e);
      } else {
        NextEvents(st, tasks, step, e);
        PrescribedStays(st.plans, next.plans, step.plan, step.session, e);
      }
    }
  }

  ghost predicate FreshSessionIds(st: Store, tasks: Tasks, steps: seq<Step>) {
    forall k :: 0 <= k < |steps| ==> FreshSessions(Run(st, tasks, steps[..k]), steps[k])
  }

  lemma {:induction false} RunKeepsEvents(st: Store, tasks: Tasks, steps: seq<Step>)
    requires UniqueSessions(st.plans) && EventsPrescribed(st) && FreshSessionIds(st, tasks, steps)
    ensures UniqueSessions(Run(st, tasks, steps).plans) && EventsPrescribed(Run(st, tasks, steps))
  {
    hide Next, UniqueSessions, EventsPrescribed, FreshSessions;
    if steps != [] {
      var init := steps[..|steps| - 1];
      forall k | 0 <= k < |init| ensures FreshSessions(Run(st, tasks, init[..k]), init[k]) {
        assert init[..k] == steps[..k];
      }
      RunKeepsEvents(st, tasks, init);
      assert FreshSessions(Run(st, tasks, steps[..|steps| - 1]), steps[|steps| - 1]);
      NextKeepsSessionsUnique(Run(st, tasks, init), tasks, steps[|steps| - 1]);
      NextKeepsEvents(Run(st, tasks, init), tasks, steps[|steps| - 1]);
    }
  }

  /**
    Over any run of operations and retries from an empty store, whatever the provider reported,
    two events made for the same session are the same event.
   */
  lemma {:induction false} OneEventPerSession(
    tasks: Tasks, entries: map<string, Entry>, steps: seq<Step>, e1: Event, e2: Event)
    requires FreshSessionIds(Store([], entries, {}), tasks, steps)
    requires e1 in Run(Store([], entries, {}), tasks, steps).events
    requires e2 in Run(Store([], entries, {}), tasks, steps).events
    requires e1.eventId == e2.eventId
    ensures e1 == e2
  {
    hide Run;
    var st := Store([], entries, {});
    RunKeepsEvents(st, tasks, steps);
    var end := Run(st, tasks, steps);
    var i, k :| Prescribed(end.plans, i, k, e1);
    var j, l :| Prescribed(end.plans, j, l, e2);
  }
}
