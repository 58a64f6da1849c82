/**
  The plan operations in their own form: records updated in place, with the loop of
  `apply_schedule_plan` over the sessions, and what each of them keeps and returns.
 */
module PlanService {
  import opened Prelude
  import opened Sorting
  import opened Plans
  import opened PlanRuns
  import opened ApplyRuns
  import opened Outcomes
  import opened PlanKeys
  import BacklogMinutes

  // ----- the service -----

  /** Every plan follows the transition table, and statuses go on telling what is mapped. */
  ghost predicate Progresses(before: Store, after: Store) {
    StoreEvolves(before.plans, after.plans) && (AllFit(before.plans) ==> AllFit(after.plans))
  }

  lemma StepProgresses(st: Store, tasks: Tasks, step: Step)
    ensures Progresses(st, Next(st, tasks, step))
  {
    hide Next, AllFit;
    NextEvolves(st, tasks, step);
    if AllFit(st.plans) {
      NextAllFit(st, tasks, step);
    }
  }

  /** What a creation keeps and returns. */
  lemma CreationKeeps(st: Store, tasks: Tasks, req: Request)
    requires Create(st, tasks, req).Ok?
    ensures var (next, i) := Create(st, tasks, req).value;
      && Progresses(st, next)
      && i < |next.plans| && next.plans[i].key == req.key && next.plans[i].user == req.user
      && (GroupsOk(st.plans) && FreshGroup(st, CreateStep(req)) ==> GroupsOk(next.plans))
  {
    hide GroupsOk, FreshGroup, RequestError, LatestInGroup, Progresses, NewSessions, GroupSize;
    var step := CreateStep(req);
    StepProgresses(st, tasks, step);
    if GroupsOk(st.plans) && FreshGroup(st, step) {
      NextKeepsGroups(st, tasks, step);
    }
  }

  lemma CreationAnswered(st: Store, tasks: Tasks, req: Request)
    ensures var r := Create(st, tasks, req);
      && (UniqueKeys(st.plans) ==> UniqueKeys(StoreOf(st, r).plans))
      && (UniqueKeys(st.plans) && Numbered(st.plans) ==> Answers(st, tasks, req, AnswerOf(r), StoreOf(st, r)))
  {
    hide Create, UniqueKeys, Numbered, Answers;
    if UniqueKeys(st.plans) {
      NextKeepsKeysUnique(st, tasks, CreateStep(req));
      if Numbered(st.plans) {
        CreationAnswers(st, tasks, req);
      }
    }
  }

  /** Confirming reserves exactly the plan's minutes for its task. */
  ghost predicate ReservesMinutes(before: seq<Plan>, after: seq<Plan>, i: nat)
    requires i < |before|
  {
    forall taskId :: before[i].taskId == Some(taskId) ==>
      Reserved(after, taskId) == Reserved(before, taskId) + SumBy(before[i].sessions, AllMinutes)
  }

  lemma ConfirmationKeeps(st: Store, tasks: Tasks, i: nat, now: int)
    requires Confirm(st, tasks, i, now).Ok?
    ensures var next := Confirm(st, tasks, i, now).value;
      && Progresses(st, next)
      && i < |next.plans| && next.plans[i].status == Confirmed
      && (st.plans[i].status == Proposed ==> ReservesMinutes(st.plans, next.plans, i))
  {
    hide Reserved, BacklogError, EntryValid, UpdatedEntry, RemainingWork, Progresses;
    StepProgresses(st, tasks, ConfirmStep(i, now));
    if st.plans[i].status == Proposed {
      assert Confirm(st, tasks, i, now).value.plans == st.plans[i := ConfirmedPlan(st.plans[i])];
      forall taskId | st.plans[i].taskId == Some(taskId)
        ensures Reserved(st.plans[i := ConfirmedPlan(st.plans[i])], taskId) ==
                Reserved(st.plans, taskId) + SumBy(st.plans[i].sessions, AllMinutes)
      {
        BacklogMinutes.ConfirmReserves(st.plans, i, taskId);
      }
    }
  }

  class PlanStore {
    var plans: seq<Plan>
    var entries: map<string, Entry>
    var events: set<Event>
    const tasks: Tasks

    ghost function State(): Store
      reads this
    {
      Store(plans, entries, events)
    }

    constructor (tasks: Tasks)
      ensures State() == Store([], map[], {}) && this.tasks == tasks
    {
      plans, entries, events := [], map[], {};
      this.tasks := tasks;
    }

    // create_schedule_plan_from_preview
    method CreateSchedulePlan(req: Request) returns (r: Result<nat, Error>)
      modifies this`plans
      ensures r.Err? <==> Create(old(State()), tasks, req).Err?
      ensures r.Err? ==> State() == old(State()) && Create(old(State()), tasks, req) == Err(r.error)
      ensures r.Ok? ==> Create(old(State()), tasks, req) == Ok((State(), r.value))
      ensures StoreEvolves(old(plans), plans) && (AllFit(old(plans)) ==> AllFit(plans))
      ensures r.Ok? ==> r.value < |plans| && plans[r.value].key == req.key && plans[r.value].user == req.user
      ensures GroupsOk(old(plans)) && FreshGroup(old(State()), CreateStep(req)) ==> GroupsOk(plans)
      ensures UniqueKeys(old(plans)) ==> UniqueKeys(plans)
      ensures UniqueKeys(old(plans)) && Numbered(old(plans)) ==> Answers(old(State()), tasks, req, r, State())
    {
      hide RequestError, LatestInGroup, WithKey, AllFit, GroupsOk, FreshGroup, UniqueKeys, Numbered, Answers;
      CreationAnswered(State(), tasks, req);
      if Create(State(), tasks, req).Ok? {
        CreationKeeps(State(), tasks, req);
      }
      var error := RequestError(Store(plans, entries, events), tasks, req);
      if error.Some? {
        return Err(error.value);
      }
      if !req.Valid() {
        return Err(InvalidPreview);
      }
      var existing := WithKey(plans, req.key);
      if existing.Some? {
        if plans[existing.value].user != req.user {
          return Err(KeyOfAnotherUser);
        }
        return Ok(existing.value);
      }
      var version := 1;
      var previous := if req.group.Some? then LatestInGroup(plans, req.group.value) else None;
      if previous.Some? {
        var p := plans[previous.value];
        if p.user != req.user {
          return Err(GroupOfAnotherUser);
        }
        if p.status == Applied || p.status == Applying || p.status == PartiallyApplied {
          return Err(InvalidTransition);
        }
        version := p.version + 1;
        if Replaceable(p.status) {
          plans := plans[previous.value := Obsoleted(p)];
        }
      }
      plans := plans + [NewPlan(req, version)];
      return Ok(|plans| - 1);
    }

    // confirm_schedule_plan
    method ConfirmSchedulePlan(i: nat, now: int) returns (r: Result<(), Error>)
      modifies this`plans, this`entries
      ensures r.Err? <==> Confirm(old(State()), tasks, i, now).Err?
      ensures r.Err? ==> State() == old(State()) && Confirm(old(State()), tasks, i, now) == Err(r.error)
      ensures r.Ok? ==> Confirm(old(State()), tasks, i, now) == Ok(State())
      ensures StoreEvolves(old(plans), plans) && (AllFit(old(plans)) ==> AllFit(plans))
      ensures r.Ok? ==> i < |plans| == |old(plans)| && plans[i].status == Confirmed
      ensures r.Ok? && old(plans)[i].status == Proposed ==> ReservesMinutes(old(plans), plans, i)
    {
      hide BacklogError, UpdatedEntry, EntryValid, RemainingWork, AllFit, ReservesMinutes;
      if Confirm(State(), tasks, i, now).Ok? {
        ConfirmationKeeps(State(), tasks, i, now);
      }
      if i >= |plans| {
        return Err(PlanNotFound);
      }
      var p := plans[i];
      if p.status == Confirmed {
        return Ok(());
      }
      if p.status != Proposed {
        return Err(InvalidTransition);
      }
      if p.backlogId.None? {
        plans := plans[i := ConfirmedPlan(p)];
        return Ok(());
      }
      var error := BacklogError(Store(plans, entries, events), tasks, p);
      if error.Some? {
        return Err(error.value);
      }
      LinkedHasRecords(Store(plans, entries, events), tasks, p);
      var entry := entries[p.backlogId.value];
      var duration := tasks[entry.taskId].duration;
      var confirmed := plans[i := ConfirmedPlan(p)];
      var updated := UpdatedEntry(entry, RemainingWork(duration, confirmed, entry.taskId), now);
      if !EntryValid(updated, duration) {
        // the rollback undoes the confirmation
        return Err(ClosingValidation);
      }
      plans := confirmed;
      entries := entries[p.backlogId.value := updated];
      return Ok(());
    }

    // the status part of revalidate_schedule_plan
    method RevalidateSchedulePlan(i: nat, outcome: Revalidation) returns (r: Result<PlanStatus, Error>)
      modifies this`plans
      ensures r.Err? <==> Revalidate(old(State()), i, outcome).Err?
      ensures r.Err? ==> State() == old(State())
      ensures r.Ok? ==> Revalidate(old(State()), i, outcome) == Ok(State()) && i < |plans| && r.value == plans[i].status
      ensures StoreEvolves(old(plans), plans) && (AllFit(old(plans)) ==> AllFit(plans))
      ensures r.Ok? ==> i < |old(plans)| && r.value in {Confirmed, RevalidationRequired}
      ensures r.Ok? ==> (r.value == Confirmed <==>
        outcome == Valid || (outcome == ProviderFailure && old(plans)[i].status == Confirmed))
    {
      hide AllFit;
      StepProgresses(State(), tasks, RevalidateStep(i, outcome));
      if i >= |plans| {
        return Err(PlanNotFound);
      }
      var status := plans[i].status;
      if status != Confirmed && status != RevalidationRequired {
        return Err(InvalidTransition);
      }
      match outcome {
        case ProviderFailure =>
        case PartialFailure => status := RevalidationRequired;
        case Conflict => status := RevalidationRequired;
        case Valid => status := Confirmed;
      }
      plans := plans[i := plans[i].(status := status)];
      return Ok(status);
    }

    // obsolete_schedule_plan
    method ObsoleteSchedulePlan(i: nat) returns (r: Result<(), Error>)
      modifies this`plans
      ensures r.Err? <==> MarkObsolete(old(State()), i).Err?
      ensures r.Err? ==> State() == old(State())
      ensures r.Ok? ==> MarkObsolete(old(State()), i) == Ok(State())
      ensures StoreEvolves(old(plans), plans) && (AllFit(old(plans)) ==> AllFit(plans))
      ensures r.Ok? ==> i < |plans| && plans[i].status == Obsolete && PlanReserved(plans[i]) == 0
    {
      hide AllFit;
      StepProgresses(State(), tasks, ObsoleteStep(i));
      if i >= |plans| {
        return Err(PlanNotFound);
      }
      if plans[i].status == Obsolete {
        return Ok(());
      }
      if !Replaceable(plans[i].status) {
        return Err(InvalidTransition);
      }
      plans := plans[i := Obsoleted(plans[i])];
      return Ok(());
    }

    /** The loop over the sessions of a plan whose apply has begun. */
    method AttemptSessions(i: nat, attempts: seq<Attempt>) returns (outcomes: seq<Outcome>)
      requires i < |plans| && ReadyToAttempt(plans[i])
      modifies this`plans, this`events
      ensures State() == AttemptUpTo(old(State()), i, attempts, |old(plans[i].sessions)|)
      ensures outcomes == AttemptOutcomes(old(plans[i].sessions), attempts)
      ensures i < |plans| && OutcomesTell(
        MappedOutcomes(old(plans[i].sessions)) + outcomes, old(plans[i].sessions), plans[i].sessions, events)
    {
      hide TargetsOf, OutcomesTell, AttemptUpTo, ApplySession, Attempted, CreatesEvent;
      ghost var st := State();
      var sessions := plans[i].sessions;
      outcomes := [];
      LoopTells(st, i, attempts);
      AttemptsStart(st, i, attempts);
      for k := 0 to |sessions|
        invariant State() == AttemptUpTo(st, i, attempts, k)
        invariant |plans| == |st.plans| && |plans[i].sessions| == |sessions|
        invariant plans[i].status == Applying && plans[i].targets == st.plans[i].targets
        invariant forall j :: k <= j < |sessions| ==> plans[i].sessions[j] == sessions[j]
        invariant outcomes == AttemptOutcomes(sessions[..k], attempts)
      {
        assert sessions[..k + 1][..k] == sessions[..k];
        var session := plans[i].sessions[k];
        assert session == sessions[k] && sessions[k] in sessions;
        AttemptsNext(st, i, attempts, k);
        AttemptKeeps(st, i, attempts, k + 1);
        if session.mapping.Some? {
          MappedIsSkipped(State(), i, k, AttemptOf(attempts, k));
          continue;
        }
        var attempt := AttemptOf(attempts, k);
        UnmappedIsAttempted(State(), i, k, attempt);
        var event := TargetEvent(plans[i], session);
        if CreatesEvent(attempt) {
          events := events + {event};
        }
        var attempted := Attempted(session, event, attempt);
        plans := plans[i := plans[i].(sessions := plans[i].sessions[k := attempted])];
        outcomes := outcomes + [Outcome(session.id, KindOf(attempt))];
      }
      assert sessions[..|sessions|] == sessions;
    }

    // apply_schedule_plan
    method ApplySchedulePlan(i: nat, usable: set<string>, attempts: seq<Attempt>)
      returns (r: Result<seq<Outcome>, Error>)
      modifies this`plans, this`events
      ensures r.Err? <==> ApplyWhole(old(State()), i, usable, attempts).Err?
      ensures r.Err? ==> State() == old(State())
      ensures r.Ok? ==> ApplyWhole(old(State()), i, usable, attempts) == Ok(State())
      ensures r.Ok? && (old(plans[i].status) != Applied || AllMapped(old(plans[i]))) ==>
        multiset(OutcomeIds(r.value)) == multiset(SessionIds(old(plans[i].sessions)))
      ensures r.Ok? ==> i < |old(plans)| && i < |plans|
      ensures r.Ok? && old(plans)[i].status != Applied ==>
        OutcomesTell(r.value, old(plans)[i].sessions, plans[i].sessions, events)
      ensures r.Ok? && old(plans)[i].status != Applied && old(plans)[i].sessions != [] ==>
        (plans[i].status == Applied <==> forall o | o in r.value :: o.kind != NotApplied)
      ensures r.Ok? && old(plans)[i].status == Applied ==>
        State() == old(State()) && forall o | o in r.value :: o.kind == AlreadyApplied
    {
      hide TargetsResolve, AttemptUpTo, ApplyFinish, OutcomesTell;
      if ApplyWhole(State(), i, usable, attempts).Ok? && plans[i].status != Applied {
        ApplyTells(State(), i, usable, attempts);
        if plans[i].sessions != [] {
          AppliedIffNoneFailed(State(), i, usable, attempts);
        }
      }
      if i >= |plans| {
        return Err(PlanNotFound);
      }
      if plans[i].status == Applied {
        if AllMapped(plans[i]) {
          AllMappedOutcomes(plans[i].sessions);
        }
        MappedAreAlready(plans[i].sessions);
        return Ok(MappedOutcomes(plans[i].sessions));
      }
      if plans[i].status != Confirmed && plans[i].status != PartiallyApplied {
        return Err(InvalidTransition);
      }
      if !TargetsResolve(plans[i], usable) {
        return Err(TargetUnavailable);
      }
      ghost var p := plans[i];
      var existing := MappedOutcomes(plans[i].sessions);
      BeginResolves(plans[i], usable);
      plans := plans[i := plans[i].(status := Applying, sessions := BegunAll(plans[i].sessions))];
      ghost var begun := State();
      var attempted := AttemptSessions(i, attempts);
      AttemptKeeps(begun, i, attempts, |p.sessions|);
      FinishSucceeds(State(), i);
      var mapped := SumBy(plans[i].sessions, Mapped);
      var status := if mapped == |plans[i].sessions| then Applied
                    else if mapped != 0 then PartiallyApplied else Failed;
      plans := plans[i := plans[i].(status := status)];
      OutcomesCover(p.sessions, attempts);
      BegunOutcomes(p.sessions, attempts);
      return Ok(existing + attempted);
    }
  }

  lemma LinkedHasRecords(st: Store, tasks: Tasks, p: Plan)
    requires p.backlogId.Some? && BacklogError(st, tasks, p).None?
    ensures p.backlogId.value in st.entries && st.entries[p.backlogId.value].taskId in tasks
  {
  }

  lemma AttemptsStart(st: Store, i: nat, attempts: seq<Attempt>)
    ensures AttemptUpTo(st, i, attempts, 0) == st
  {
  }

  lemma AttemptsNext(st: Store, i: nat, attempts: seq<Attempt>, k: nat)
    ensures var before := AttemptUpTo(st, i, attempts, k);
      AttemptUpTo(st, i, attempts, k + 1) == Kept(before, ApplySession(before, i, k, AttemptOf(attempts, k)))
  {
  }

  lemma MappedIsSkipped(st: Store, i: nat, k: nat, attempt: Attempt)
    requires i < |st.plans| && k < |st.plans[i].sessions| && st.plans[i].status == Applying
    requires st.plans[i].sessions[k].mapping.Some?
    ensures ApplySession(st, i, k, attempt) == Ok(st)
  {
  }

  lemma UnmappedIsAttempted(st: Store, i: nat, k: nat, attempt: Attempt)
    requires i < |st.plans| && k < |st.plans[i].sessions| && st.plans[i].status == Applying
    requires st.plans[i].sessions[k].mapping.None? && st.plans[i].sessions[k].status == SessionApplying
    requires TargetsOf(st.plans[i].targets, st.plans[i].sessions[k].id) != []
    ensures var p := st.plans[i];
      var e := TargetEvent(p, p.sessions[k]);
      ApplySession(st, i, k, attempt) ==
      Ok(st.(plans := st.plans[i := p.(sessions := p.sessions[k := Attempted(p.sessions[k], e, attempt)])],
             events := if CreatesEvent(attempt) then st.events + {e} else st.events))
  {
    hide TargetsOf;
  }

  lemma BeginResolves(p: Plan, usable: set<string>)
    requires TargetsResolve(p, usable)
    ensures forall s | s in BegunAll(p.sessions) && s.mapping.None? ::
      TargetsOf(p.targets, s.id) != [] && s.status == SessionApplying
  {
    hide TargetsOf;
    forall s | s in BegunAll(p.sessions) && s.mapping.None?
      ensures TargetsOf(p.targets, s.id) != [] && s.status == SessionApplying
    {
      var k :| 0 <= k < |p.sessions| && BegunAll(p.sessions)[k] == s;
      assert p.sessions[k] in p.sessions && HasTarget(p, p.sessions[k], usable);
    }
  }

  lemma FinishSucceeds(st: Store, i: nat)
    requires i < |st.plans| && st.plans[i].status == Applying
    ensures ApplyFinish(st, i) == Ok(st.(plans := st.plans[i := st.plans[i].(status := ResultingStatus(st.plans[i]))]))
  {
  }
}
