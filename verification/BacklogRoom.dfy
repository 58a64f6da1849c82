/**
  Reserved minutes over every run. Three steps take minutes without asking for them: confirming
  a plan that no backlog entry is linked to, beginning an apply, which takes back the minutes of
  failed sessions, and an external move, which rewrites those of a session. The reserved minutes
  stay within the task's duration exactly when there is room for all three.
 */
module BacklogRoom {
  import opened Prelude
  import opened Sorting
  import opened Plans
  import opened PlanRuns
  import opened BacklogMinutes
  import BacklogRuns

  // ----- what the steps of an apply and a move do -----

  function FailedMinutes(s: PlanSession): int {
    if s.status == SessionFailed || s.status == SessionObsolete then s.minutes else 0
  }

  lemma {:induction false} BegunCounts(sessions: seq<PlanSession>)
    ensures SumBy(BegunAll(sessions), CountedMinutes) ==
            SumBy(sessions, CountedMinutes) + SumBy(sessions, FailedMinutes)
  {
    if sessions != [] {
      BegunCounts(sessions[..|sessions| - 1]);
      assert BegunAll(sessions)[..|sessions| - 1] == BegunAll(sessions[..|sessions| - 1]);
    }
  }

  /** Starting an apply takes back the minutes of the plan's failed sessions. */
  lemma RetryRevivesMinutes(st: Store, i: nat, usable: set<string>, taskId: string)
    requires ApplyBegin(st, i, usable).Ok? && st.plans[i].taskId == Some(taskId)
    ensures Reserved(ApplyBegin(st, i, usable).value.plans, taskId) ==
            Reserved(st.plans, taskId) + SumBy(st.plans[i].sessions, FailedMinutes)
  {
    hide Reserved, TargetsResolve;
    var p := st.plans[i];
    var q := p.(status := Applying, sessions := BegunAll(p.sessions));
    ReservedUpdate(st.plans, i, q, taskId);
    BegunCounts(p.sessions);
  }

  lemma SessionUpdateCounts(sessions: seq<PlanSession>, k: nat, s: PlanSession)
    requires k < |sessions|
    ensures SumBy(sessions[k := s], CountedMinutes) ==
            SumBy(sessions, CountedMinutes) - CountedMinutes(sessions[k]) + CountedMinutes(s)
  {
    SumByUpdate(sessions, k, s, CountedMinutes);
  }

  /** By how much a move raises the reserved minutes of the task. */
  function MovedBy(st: Store, i: nat, k: nat, minutes: int, taskId: string): int
    requires i < |st.plans| && k < |st.plans[i].sessions|
  {
    var p := st.plans[i];
    var s := p.sessions[k];
    if p.taskId == Some(taskId) && Reserves(p.status) then CountedMinutes(s.(minutes := minutes)) - CountedMinutes(s)
    else 0
  }

  lemma MoveReserves(st: Store, i: nat, k: nat, minutes: int, taskId: string)
    requires MoveSession(st, i, k, minutes).Ok?
    ensures Reserved(MoveSession(st, i, k, minutes).value.plans, taskId) ==
            Reserved(st.plans, taskId) + MovedBy(st, i, k, minutes, taskId)
  {
    hide Reserved, CountedMinutes;
    var p := st.plans[i];
    var s := p.sessions[k].(minutes := minutes);
    ReservedUpdate(st.plans, i, p.(sessions := p.sessions[k := s]), taskId);
    SessionUpdateCounts(p.sessions, k, s);
  }

  /** An attempt never raises the reserved minutes. */
  lemma AttemptReserves(st: Store, i: nat, k: nat, attempt: Attempt, taskId: string)
    requires ApplySession(st, i, k, attempt).Ok? && BacklogRuns.PositivePlans(st.plans)
    ensures Reserved(ApplySession(st, i, k, attempt).value.plans, taskId) <= Reserved(st.plans, taskId)
  {
    hide Reserved, TargetsOf;
    var p := st.plans[i];
    var s := p.sessions[k];
    if s.mapping.None? {
      assert p in st.plans && s in p.sessions;
      var t := Attempted(s, TargetEvent(p, s), attempt);
      ReservedUpdate(st.plans, i, p.(sessions := p.sessions[k := t]), taskId);
      SessionUpdateCounts(p.sessions, k, t);
    }
  }

  /** Nor does the end of an apply, which gives minutes back only when the plan has failed. */
  lemma FinishReserves(st: Store, i: nat, taskId: string)
    requires ApplyFinish(st, i).Ok? && BacklogRuns.PositivePlans(st.plans)
    ensures Reserved(ApplyFinish(st, i).value.plans, taskId) <= Reserved(st.plans, taskId)
    ensures ApplyFinish(st, i).value.plans[i].status != Failed ==>
      Reserved(ApplyFinish(st, i).value.plans, taskId) == Reserved(st.plans, taskId)
  {
    hide Reserved, ResultingStatus;
    var p := st.plans[i];
    assert p in st.plans;
    MinutesNonNegative(p.sessions);
    ReservedUpdate(st.plans, i, ApplyFinish(st, i).value.plans[i], taskId);
  }

  // ----- all steps -----

  /** A proposed plan of the task whose confirmation nothing limits: it has no backlog entry. */
  predicate Unlimited(st: Store, i: nat, taskId: string) {
    && i < |st.plans|
    && st.plans[i].status == Proposed && st.plans[i].taskId == Some(taskId) && st.plans[i].backlogId.None?
  }

  /** The minutes a step takes from the task without asking. */
  function TakenBy(st: Store, step: Step, taskId: string): int {
    match step
    case ConfirmStep(i, _) =>
      if Unlimited(st, i, taskId) then SumBy(st.plans[i].sessions, AllMinutes) else 0
    case BeginStep(i, usable) =>
      if ApplyBegin(st, i, usable).Ok? && st.plans[i].taskId == Some(taskId)
      then SumBy(st.plans[i].sessions, FailedMinutes) else 0
    case MoveStep(i, k, minutes) =>
      if MoveSession(st, i, k, minutes).Ok? then MovedBy(st, i, k, minutes, taskId) else 0
    case _ => 0
  }

  /** What is free of the task's duration covers what the step takes. */
  predicate HasRoom(st: Store, tasks: Tasks, step: Step, taskId: string)
    requires taskId in tasks
  {
    TakenBy(st, step, taskId) <= tasks[taskId].duration - Reserved(st.plans, taskId)
  }

  ghost predicate Fits(st: Store, tasks: Tasks, taskId: string)
    requires taskId in tasks
  {
    Reserved(st.plans, taskId) <= tasks[taskId].duration
  }

  /** Confirming reserves the plan's minutes; those of a linked plan were checked against what remains. */
  lemma ConfirmTakes(st: Store, tasks: Tasks, i: nat, now: int, taskId: string)
    requires Confirm(st, tasks, i, now).Ok?
    ensures i < |st.plans|
    ensures var p := st.plans[i];
      var taken := if p.status == Proposed && p.taskId == Some(taskId) then SumBy(p.sessions, AllMinutes) else 0;
      && Reserved(Confirm(st, tasks, i, now).value.plans, taskId) == Reserved(st.plans, taskId) + taken
      && (p.status == Proposed && p.taskId == Some(taskId) && p.backlogId.Some? ==>
            taskId in tasks && taken <= RemainingWork(tasks[taskId].duration, st.plans, taskId))
  {
    hide Reserved, RemainingWork, EntryValid, UpdatedEntry;
    if st.plans[i].status == Proposed {
      ConfirmReserves(st.plans, i, taskId);
      if st.plans[i].backlogId.Some? {
        ConfirmedEntry(st, tasks, i, now);
      }
    }
  }

  lemma UnlimitedConfirms(st: Store, tasks: Tasks, i: nat, now: int, taskId: string)
    requires Unlimited(st, i, taskId)
    ensures Confirm(st, tasks, i, now).Ok?
  {
  }

  lemma ConfirmFitsIff(st: Store, tasks: Tasks, i: nat, now: int, taskId: string)
    requires taskId in tasks && Fits(st, tasks, taskId)
    ensures Fits(Next(st, tasks, ConfirmStep(i, now)), tasks, taskId) <==>
            HasRoom(st, tasks, ConfirmStep(i, now), taskId)
  {
    hide Reserved, Confirm, SumBy;
    if Unlimited(st, i, taskId) {
      UnlimitedConfirms(st, tasks, i, now, taskId);
    }
    if Confirm(st, tasks, i, now).Ok? {
      ConfirmTakes(st, tasks, i, now, taskId);
    }
  }

  lemma PlanningReserves(st: Store, tasks: Tasks, step: Step, taskId: string)
    requires BacklogRuns.PositivePlans(st.plans)
    requires step.CreateStep? || step.RevalidateStep? || step.ObsoleteStep?
    ensures Reserved(Next(st, tasks, step).plans, taskId) <= Reserved(st.plans, taskId)
  {
    hide Reserved, Create, Revalidate, PositiveMinutes, Obsoleted;
    match step {
      case CreateStep(req) =>
        if Create(st, tasks, req).Ok? {
          CreateReserves(st, tasks, req, taskId);
        }
      case RevalidateStep(i, outcome) =>
        if Revalidate(st, i, outcome).Ok? {
          RevalidateReserves(st, i, outcome, taskId);
        }
      case ObsoleteStep(i) =>
        if MarkObsolete(st, i).Ok? {
          assert st.plans[i] in st.plans;
          ObsoleteReserves(st.plans, i, taskId);
        }
    }
  }

  /** From a fitting state, a step leads to a fitting one exactly when there is room for it. */
  lemma NextFitsIff(st: Store, tasks: Tasks, step: Step, taskId: string)
    requires BacklogRuns.PositivePlans(st.plans)
    requires taskId in tasks && Fits(st, tasks, taskId)
    ensures Fits(Next(st, tasks, step), tasks, taskId) <==> HasRoom(st, tasks, step, taskId)
  {
    hide BacklogRuns.PositivePlans, Reserved, Create, Confirm, Revalidate, MarkObsolete;
    hide ApplyBegin, ApplySession, ApplyFinish, MoveSession, MovedBy;
    match step {
      case ConfirmStep(i, now) =>
        ConfirmFitsIff(st, tasks, i, now, taskId);
      case BeginStep(i, usable) =>
        if ApplyBegin(st, i, usable).Ok? {
          BeginTakes(st, i, usable, taskId);
        }
      case AttemptStep(i, k, attempt) =>
        if ApplySession(st, i, k, attempt).Ok? {
          AttemptReserves(st, i, k, attempt, taskId);
        }
      case FinishStep(i) =>
        if ApplyFinish(st, i).Ok? {
          FinishReserves(st, i, taskId);
        }
      case MoveStep(i, k, minutes) =>
        if MoveSession(st, i, k, minutes).Ok? {
          MoveReserves(st, i, k, minutes, taskId);
        }
      case _ => PlanningReserves(st, tasks, step, taskId);
    }
  }

  lemma BeginTakes(st: Store, i: nat, usable: set<string>, taskId: string)
    requires ApplyBegin(st, i, usable).Ok?
    ensures Reserved(ApplyBegin(st, i, usable).value.plans, taskId) ==
            Reserved(st.plans, taskId) + TakenBy(st, BeginStep(i, usable), taskId)
  {
    hide Reserved, TargetsResolve;
    if st.plans[i].taskId == Some(taskId) {
      RetryRevivesMinutes(st, i, usable, taskId);
    } else {
      ReservedUpdate(st.plans, i, ApplyBegin(st, i, usable).value.plans[i], taskId);
    }
  }

  ghost predicate FitsThroughout(st: Store, tasks: Tasks, steps: seq<Step>, taskId: string)
    requires taskId in tasks
  {
    forall k :: 0 <= k <= |steps| ==> Fits(Run(st, tasks, steps[..k]), tasks, taskId)
  }

  ghost predicate RoomThroughout(st: Store, tasks: Tasks, steps: seq<Step>, taskId: string)
    requires taskId in tasks
  {
    forall k :: 0 <= k < |steps| ==> HasRoom(Run(st, tasks, steps[..k]), tasks, steps[k], taskId)
  }

  lemma {:induction false} RunKeepsPositive(st: Store, tasks: Tasks, steps: seq<Step>)
    requires BacklogRuns.PositivePlans(st.plans)
    ensures BacklogRuns.PositivePlans(Run(st, tasks, steps).plans)
  {
    hide Next, BacklogRuns.PositivePlans;
    if steps != [] {
      var init := steps[..|steps| - 1];
      RunKeepsPositive(st, tasks, init);
      BacklogRuns.NextKeepsPositive(Run(st, tasks, init), tasks, steps[|steps| - 1]);
    }
  }

  /**
    The exact condition. Over any run of creating, confirming, revalidating, obsoleting and
    applying plans and of external moves, with plans linked to backlog entries or not: a task's
    reserved minutes stay within its duration throughout exactly when, whenever an unlinked plan
    of it is confirmed, an apply begins or a session is moved, what is free covers the plan's
    minutes, the failed minutes taken back or the minutes added.
   */
  lemma {:induction false} FitsIffRoom(st: Store, tasks: Tasks, steps: seq<Step>, taskId: string)
    requires BacklogRuns.PositivePlans(st.plans)
    requires taskId in tasks && Fits(st, tasks, taskId)
    ensures FitsThroughout(st, tasks, steps, taskId) <==> RoomThroughout(st, tasks, steps, taskId)
  {
    hide Next, BacklogRuns.PositivePlans, Fits, HasRoom;
    if steps == [] {
      EmptyRun(st, tasks);
    } else {
      var n := |steps| - 1;
      var init, last := steps[..n], steps[n];
      FitsIffRoom(st, tasks, init, taskId);
      var mid := Run(st, tasks, init);
      RunKeepsPositive(st, tasks, init);
      assert Run(st, tasks, steps) == Next(mid, tasks, last);
      if Fits(mid, tasks, taskId) {
        NextFitsIff(mid, tasks, last, taskId);
      }
      ThroughoutNext(st, tasks, steps, taskId);
    }
  }

  lemma ThroughoutNext(st: Store, tasks: Tasks, steps: seq<Step>, taskId: string)
    requires taskId in tasks && steps != []
    ensures var n := |steps| - 1;
      && (FitsThroughout(st, tasks, steps, taskId) <==>
            FitsThroughout(st, tasks, steps[..n], taskId) && Fits(Run(st, tasks, steps), tasks, taskId))
      && (RoomThroughout(st, tasks, steps, taskId) <==>
            && RoomThroughout(st, tasks, steps[..n], taskId)
            && HasRoom(Run(st, tasks, steps[..n]), tasks, steps[n], taskId))
      && (FitsThroughout(st, tasks, steps[..n], taskId) ==> Fits(Run(st, tasks, steps[..n]), tasks, taskId))
  {
    hide Run, Fits, HasRoom;
    var n := |steps| - 1;
    assert steps[..n + 1] == steps && steps[..n][..n] == steps[..n];
    forall k | 0 <= k <= n ensures steps[..n][..k] == steps[..k] {
    }
    if FitsThroughout(st, tasks, steps, taskId) {
      assert Fits(Run(st, tasks, steps[..n + 1]), tasks, taskId);
      forall k | 0 <= k <= n ensures Fits(Run(st, tasks, steps[..n][..k]), tasks, taskId) {
        assert Fits(Run(st, tasks, steps[..k]), tasks, taskId);
      }
    }
    if RoomThroughout(st, tasks, steps, taskId) {
      assert HasRoom(Run(st, tasks, steps[..n]), tasks, steps[n], taskId);
      forall k | 0 <= k < n ensures HasRoom(Run(st, tasks, steps[..n][..k]), tasks, steps[..n][k], taskId) {
        assert HasRoom(Run(st, tasks, steps[..k]), tasks, steps[k], taskId);
      }
    }
    if RoomThroughout(st, tasks, steps[..n], taskId) && HasRoom(Run(st, tasks, steps[..n]), tasks, steps[n], taskId) {
      forall k | 0 <= k < |steps| ensures HasRoom(Run(st, tasks, steps[..k]), tasks, steps[k], taskId) {
        if k < n {
          assert HasRoom(Run(st, tasks, steps[..n][..k]), tasks, steps[..n][k], taskId);
        }
      }
    }
    if FitsThroughout(st, tasks, steps[..n], taskId) && Fits(Run(st, tasks, steps), tasks, taskId) {
      forall k | 0 <= k <= |steps| ensures Fits(Run(st, tasks, steps[..k]), tasks, taskId) {
        if k <= n {
          assert Fits(Run(st, tasks, steps[..n][..k]), tasks, taskId);
        }
      }
    }
  }

  // ----- runs in which nothing is taken -----

  /** Every plan of the task is linked to a backlog entry, and has sessions of positive length. */
  ghost predicate Linked(plans: seq<Plan>, taskId: string) {
    forall p | p in plans :: PositiveMinutes(p) && (p.taskId == Some(taskId) ==> p.backlogId.Some?)
  }

  /** A step before an apply; a plan created for the task is linked to a backlog entry. */
  predicate PlanningStep(step: Step, taskId: string) {
    match step
    case CreateStep(req) => req.taskId == Some(taskId) ==> req.backlogId.Some?
    case ConfirmStep(_, _) => true
    case RevalidateStep(_, _) => true
    case ObsoleteStep(_) => true
    case _ => false
  }

  lemma NextKeepsLinked(st: Store, tasks: Tasks, step: Step, taskId: string)
    requires Linked(st.plans, taskId) && PlanningStep(step, taskId)
    ensures Linked(Next(st, tasks, step).plans, taskId)
  {
    hide Next, PositiveMinutes;
    assert BacklogRuns.PositivePlans(st.plans);
    BacklogRuns.NextKeepsPositive(st, tasks, step);
    NextEvolves(st, tasks, step);
    var next := Next(st, tasks, step).plans;
    forall p | p in next ensures PositiveMinutes(p) && (p.taskId == Some(taskId) ==> p.backlogId.Some?) {
      var i :| 0 <= i < |next| && next[i] == p;
      if i < |st.plans| {
        assert Evolves(st.plans[i], next[i]) && st.plans[i] in st.plans;
      } else {
        OnlyCreateAppends(st, tasks, step);
        AddedIsRequested(st, tasks, step.req);
      }
    }
  }

  lemma AddedIsRequested(st: Store, tasks: Tasks, req: Request)
    requires Create(st, tasks, req).Ok?
    ensures Next(st, tasks, CreateStep(req)) == Create(st, tasks, req).value.0
    ensures var plans := Create(st, tasks, req).value.0.plans;
      |plans| > |st.plans| ==> plans[|st.plans|].taskId == req.taskId && plans[|st.plans|].backlogId == req.backlogId
  {
    hide RequestError, LatestInGroup, WithKey, NewSessions;
  }

  lemma LinkedTakesNothing(st: Store, step: Step, taskId: string)
    requires Linked(st.plans, taskId) && PlanningStep(step, taskId)
    ensures TakenBy(st, step, taskId) == 0
  {
    hide PositiveMinutes;
    if step.ConfirmStep? && step.plan < |st.plans| {
      assert st.plans[step.plan] in st.plans;
    }
  }

  /**
    Over any run of creating, confirming, revalidating and obsoleting plans that link the
    task's plans to backlog entries, the task's reserved minutes never exceed its duration.
   */
  lemma {:induction false} ReservedStaysWithinDuration(st: Store, tasks: Tasks, steps: seq<Step>, taskId: string)
    requires Linked(st.plans, taskId) && taskId in tasks && Fits(st, tasks, taskId)
    requires forall step | step in steps :: PlanningStep(step, taskId)
    ensures Linked(Run(st, tasks, steps).plans, taskId) && Fits(Run(st, tasks, steps), tasks, taskId)
  {
    hide Next, PlanningStep, PositiveMinutes, TakenBy;
    if steps != [] {
      var init, last := steps[..|steps| - 1], steps[|steps| - 1];
      assert last in steps && forall step | step in init :: step in steps;
      ReservedStaysWithinDuration(st, tasks, init, taskId);
      var mid := Run(st, tasks, init);
      NextKeepsLinked(mid, tasks, last, taskId);
      LinkedTakesNothing(mid, last, taskId);
      NextFitsIff(mid, tasks, last, taskId);
    }
  }
}
