/**
  Backlog minute accounting at confirmation (app/schedule_plans/service.py with
  app/backlog/domain.py).
 */
module BacklogMinutes {
  import opened Prelude
  import opened Sorting
  import opened Plans

  lemma {:induction false} CountedAfter(sessions: seq<PlanSession>, status: SessionStatus)
    ensures status != SessionFailed && status != SessionObsolete ==>
      SumBy(SetStatus(sessions, status), CountedMinutes) == SumBy(sessions, AllMinutes)
    ensures status == SessionObsolete ==> SumBy(SetStatus(sessions, status), CountedMinutes) == 0
  {
    if sessions != [] {
      CountedAfter(sessions[..|sessions| - 1], status);
      assert SetStatus(sessions, status)[..|sessions| - 1] == SetStatus(sessions[..|sessions| - 1], status);
    }
  }

  predicate PositiveMinutes(p: Plan) {
    forall s | s in p.sessions :: s.minutes > 0
  }

  lemma {:induction false} MinutesNonNegative(sessions: seq<PlanSession>)
    requires forall s | s in sessions :: s.minutes > 0
    ensures SumBy(sessions, CountedMinutes) >= 0 && SumBy(sessions, AllMinutes) >= 0
    ensures sessions != [] ==> SumBy(sessions, AllMinutes) > 0
  {
    if sessions != [] {
      assert sessions[|sessions| - 1] in sessions;
      assert forall s | s in sessions[..|sessions| - 1] :: s in sessions;
      MinutesNonNegative(sessions[..|sessions| - 1]);
    }
  }

  /** Changing one plan changes the reserved minutes by what the plan's own reservation changes. */
  lemma ReservedUpdate(plans: seq<Plan>, i: nat, q: Plan, taskId: string)
    requires i < |plans| && q.taskId == plans[i].taskId
    ensures Reserved(plans[i := q], taskId) ==
            Reserved(plans, taskId)
            + (if q.taskId == Some(taskId) then PlanReserved(q) - PlanReserved(plans[i]) else 0)
  {
    hide PlanReserved;
    SumByUpdate(plans, i, q, ReservedFor(taskId));
  }

  /** Confirming a proposed plan reserves all its minutes. */
  lemma ConfirmReserves(plans: seq<Plan>, i: nat, taskId: string)
    requires i < |plans| && plans[i].status == Proposed
    ensures Reserved(plans[i := ConfirmedPlan(plans[i])], taskId) ==
            Reserved(plans, taskId)
            + (if plans[i].taskId == Some(taskId) then SumBy(plans[i].sessions, AllMinutes) else 0)
  {
    ReservedUpdate(plans, i, ConfirmedPlan(plans[i]), taskId);
    CountedAfter(plans[i].sessions, SessionConfirmed);
  }

  /**
    Confirming a proposed backlog-linked plan lowers the recomputed remaining work of its task by
    exactly the plan's minutes, stores that number in the entry, and resolves the entry exactly
    when nothing remains.
   */
  lemma ConfirmAccountsMinutes(st: Store, tasks: Tasks, i: nat, now: int)
    requires Confirm(st, tasks, i, now).Ok?
    requires st.plans[i].status == Proposed && st.plans[i].backlogId.Some?
    requires PositiveMinutes(st.plans[i]) && st.plans[i].sessions != []
    ensures var p := st.plans[i];
      var next := Confirm(st, tasks, i, now).value;
      var id := p.backlogId.value;
      && id in st.entries && id in next.entries && st.entries[id].taskId in tasks
      && var taskId := st.entries[id].taskId;
         var duration := tasks[taskId].duration;
         && RemainingWork(duration, next.plans, taskId) ==
            RemainingWork(duration, st.plans, taskId) - SumBy(p.sessions, AllMinutes)
         && next.entries[id].remaining == RemainingWork(duration, next.plans, taskId)
         && (next.entries[id].status == Resolved <==> next.entries[id].remaining == 0)
  {
    hide Reserved, EntryValid;
    var p := st.plans[i];
    var entry := st.entries[p.backlogId.value];
    MinutesNonNegative(p.sessions);
    ConfirmReserves(st.plans, i, entry.taskId);
    ConfirmedEntry(st, tasks, i, now);
  }

  lemma ConfirmedEntry(st: Store, tasks: Tasks, i: nat, now: int)
    requires Confirm(st, tasks, i, now).Ok?
    requires st.plans[i].status == Proposed && st.plans[i].backlogId.Some?
    ensures var p := st.plans[i];
      var next := Confirm(st, tasks, i, now).value;
      && next.plans == st.plans[i := ConfirmedPlan(p)]
      && BacklogError(st, tasks, p).None?
      && p.backlogId.value in next.entries
      && var entry := st.entries[p.backlogId.value];
         next.entries[p.backlogId.value] ==
         UpdatedEntry(entry, RemainingWork(tasks[entry.taskId].duration, next.plans, entry.taskId), now)
  {
    hide Reserved, RemainingWork, EntryValid, UpdatedEntry;
  }

  /** The closing validation cannot fail for an entry that was valid. */
  lemma ClosingValidationHolds(entry: Entry, remaining: int, duration: int, now: int)
    requires EntryValid(entry, duration) && Open(entry.status) && 0 <= remaining <= duration
    ensures EntryValid(UpdatedEntry(entry, remaining, now), duration)
  {
  }

  lemma ConfirmNeverFailsClosing(st: Store, tasks: Tasks, i: nat, now: int)
    requires i < |st.plans|
    requires forall p | p in st.plans :: PositiveMinutes(p)
    requires forall id | id in st.entries :: st.entries[id].taskId in tasks ==>
      EntryValid(st.entries[id], tasks[st.entries[id].taskId].duration)
    ensures Confirm(st, tasks, i, now) != Err(ClosingValidation)
  {
    hide Reserved, EntryValid, ConfirmedPlan, UpdatedEntry;
    var p := st.plans[i];
    if p.status == Proposed && p.backlogId.Some? && BacklogError(st, tasks, p).None? {
      var entry := st.entries[p.backlogId.value];
      var duration := tasks[entry.taskId].duration;
      var plans := st.plans[i := ConfirmedPlan(p)];
      assert p in st.plans;
      ReservedNonNegative(st.plans, entry.taskId);
      MinutesNonNegative(p.sessions);
      ConfirmReserves(st.plans, i, entry.taskId);
      ClosingValidationHolds(entry, RemainingWork(duration, plans, entry.taskId), duration, now);
    }
  }

  lemma {:induction false} ReservedNonNegative(plans: seq<Plan>, taskId: string)
    requires forall p | p in plans :: PositiveMinutes(p)
    ensures Reserved(plans, taskId) >= 0
  {
    if plans != [] {
      assert plans[|plans| - 1] in plans;
      assert forall p | p in plans[..|plans| - 1] :: p in plans;
      ReservedNonNegative(plans[..|plans| - 1], taskId);
      MinutesNonNegative(plans[|plans| - 1].sessions);
    }
  }

  // ----- what the steps before an apply do -----

  lemma ObsoletedReserves(p: Plan)
    ensures PlanReserved(Obsoleted(p)) == 0
  {
  }

  lemma PlanReservedNonNegative(p: Plan)
    requires PositiveMinutes(p)
    ensures PlanReserved(p) >= 0
  {
    MinutesNonNegative(p.sessions);
  }

  /** Obsoleting a plan gives back what it reserved. */
  lemma ObsoleteReserves(plans: seq<Plan>, i: nat, taskId: string)
    requires i < |plans| && PositiveMinutes(plans[i])
    ensures Reserved(plans[i := Obsoleted(plans[i])], taskId) <= Reserved(plans, taskId)
  {
    hide Reserved, PlanReserved, PositiveMinutes;
    ReservedUpdate(plans, i, Obsoleted(plans[i]), taskId);
    ObsoletedReserves(plans[i]);
    PlanReservedNonNegative(plans[i]);
  }

  /** A new plan is proposed and reserves nothing. */
  lemma AppendReserves(plans: seq<Plan>, req: Request, version: int, taskId: string)
    requires req.Valid()
    ensures Reserved(plans + [NewPlan(req, version)], taskId) == Reserved(plans, taskId)
  {
    var p := NewPlan(req, version);
    SumByConcat(plans, [p], ReservedFor(taskId));
    SumOne(p, ReservedFor(taskId));
  }

  /** Creating a plan never raises the reserved minutes, of whatever task. */
  lemma CreateReserves(st: Store, tasks: Tasks, req: Request, taskId: string)
    requires Create(st, tasks, req).Ok? && forall p | p in st.plans :: PositiveMinutes(p)
    ensures Reserved(Create(st, tasks, req).value.0.plans, taskId) <= Reserved(st.plans, taskId)
  {
    hide RequestError, LatestInGroup, WithKey, Reserved, Obsoleted, NewPlan, PositiveMinutes;
    if Create(st, tasks, req).value.0 != st {
      var previous := if req.group.Some? then LatestInGroup(st.plans, req.group.value) else None;
      var version := if previous.Some? then st.plans[previous.value].version + 1 else 1;
      if previous.Some? && Replaceable(st.plans[previous.value].status) {
        var p := st.plans[previous.value];
        assert p in st.plans;
        ObsoleteReserves(st.plans, previous.value, taskId);
        AppendReserves(st.plans[previous.value := Obsoleted(p)], req, version, taskId);
      } else {
        AppendReserves(st.plans, req, version, taskId);
      }
    }
  }

  /** A revalidated plan reserves what it did. */
  lemma RevalidateReserves(st: Store, i: nat, outcome: Revalidation, taskId: string)
    requires Revalidate(st, i, outcome).Ok?
    ensures Reserved(Revalidate(st, i, outcome).value.plans, taskId) == Reserved(st.plans, taskId)
  {
    hide Reserved;
    ReservedUpdate(st.plans, i, Revalidate(st, i, outcome).value.plans[i], taskId);
  }
}
