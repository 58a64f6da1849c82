/**
  What confirming, revalidating, obsoleting and the start of an apply make of a plan and its
  backlog entry, and exactly when they succeed; and where a session's event goes.
 */
module PlanEffects {
  import opened Prelude
  import opened Sorting
  import opened Plans
  import opened PlanRuns
  import BacklogMinutes
  import PlanKeys

  /** Every session with another status, and nothing else. */
  predicate AllSet(before: seq<PlanSession>, after: seq<PlanSession>, status: SessionStatus) {
    |after| == |before| && forall k :: 0 <= k < |before| ==> after[k] == before[k].(status := status)
  }

  /** The plan's entry is the user's, open and of the plan's task, which has that much work left. */
  predicate EntryAllows(st: Store, tasks: Tasks, p: Plan)
    requires p.backlogId.Some?
  {
    && p.backlogId.value in st.entries
    && var entry := st.entries[p.backlogId.value];
       && entry.user == p.user && (entry.status == Active || entry.status == Deferred)
       && p.taskId == Some(entry.taskId) && entry.taskId in tasks && tasks[entry.taskId].user == p.user
       && tasks[entry.taskId].duration > 0
       && SumBy(p.sessions, AllMinutes) + Reserved(st.plans, entry.taskId) <= tasks[entry.taskId].duration
  }

  lemma EntryAllowsIff(st: Store, tasks: Tasks, p: Plan)
    requires p.backlogId.Some? && BacklogMinutes.PositiveMinutes(p) && p.sessions != []
    ensures EntryAllows(st, tasks, p) <==> BacklogError(st, tasks, p).None?
  {
    hide Reserved;
    BacklogMinutes.MinutesNonNegative(p.sessions);
  }

  /** What is left goes into the entry, as partly scheduled; with nothing left it is resolved now. */
  predicate EntryFollows(before: Entry, after: Entry, left: int, now: int) {
    if left == 0 then after == before.(remaining := 0, status := Resolved, resolvedAt := Some(now))
    else after == before.(remaining := left, reason := PartiallyScheduled, origin := ByScheduler)
  }

  /** With valid entries: a proposed plan is confirmed iff it has no entry or its entry allows it. */
  lemma ConfirmSucceedsIff(st: Store, tasks: Tasks, i: nat, now: int)
    requires forall p | p in st.plans :: BacklogMinutes.PositiveMinutes(p) && p.sessions != []
    requires forall id | id in st.entries :: st.entries[id].taskId in tasks ==>
      EntryValid(st.entries[id], tasks[st.entries[id].taskId].duration)
    ensures Confirm(st, tasks, i, now).Ok? <==>
            i < |st.plans| &&
            (st.plans[i].status == Confirmed ||
             (st.plans[i].status == Proposed &&
              (st.plans[i].backlogId.Some? ==> EntryAllows(st, tasks, st.plans[i]))))
  {
    hide Reserved, RemainingWork, EntryValid, UpdatedEntry, BacklogError, EntryAllows;
    if i < |st.plans| {
      assert forall p | p in st.plans :: BacklogMinutes.PositiveMinutes(p);
      BacklogMinutes.ConfirmNeverFailsClosing(st, tasks, i, now);
      if st.plans[i].backlogId.Some? {
        assert st.plans[i] in st.plans;
        EntryAllowsIff(st, tasks, st.plans[i]);
      }
    }
  }

  /** Confirming a confirmed plan changes nothing; a proposed one is confirmed, and its entry follows. */
  lemma ConfirmMeans(st: Store, tasks: Tasks, i: nat, now: int)
    requires Confirm(st, tasks, i, now).Ok?
    ensures var next := Confirm(st, tasks, i, now).value;
      && i < |st.plans| == |next.plans|
      && var p, q := st.plans[i], next.plans[i];
         if p.status == Confirmed then next == st
         else
           && next.plans == st.plans[i := q] && next.events == st.events
           && q.(status := p.status, sessions := p.sessions) == p && q.status == Confirmed
           && AllSet(p.sessions, q.sessions, SessionConfirmed)
           && if p.backlogId.None? then next.entries == st.entries
              else
                && p.backlogId.value in st.entries && p.backlogId.value in next.entries
                && next.entries == st.entries[p.backlogId.value := next.entries[p.backlogId.value]]
                && var entry := st.entries[p.backlogId.value];
                   && entry.taskId in tasks
                   && EntryFollows(entry, next.entries[p.backlogId.value],
                                   RemainingWork(tasks[entry.taskId].duration, next.plans, entry.taskId), now)
  {
    hide Reserved, RemainingWork, EntryValid;
    if st.plans[i].status == Proposed && st.plans[i].backlogId.Some? {
      BacklogMinutes.ConfirmedEntry(st, tasks, i, now);
    }
  }

  /** Valid, or not known because the provider failed: then a confirmed plan stays so. */
  predicate StaysConfirmed(before: PlanStatus, outcome: Revalidation) {
    outcome == Valid || (outcome == ProviderFailure && before == Confirmed)
  }

  /** A revalidation touches only the plan's status. */
  lemma RevalidateMeans(st: Store, i: nat, outcome: Revalidation)
    ensures Revalidate(st, i, outcome).Ok? <==>
            i < |st.plans| && (st.plans[i].status == Confirmed || st.plans[i].status == RevalidationRequired)
    ensures Revalidate(st, i, outcome).Ok? ==>
      var status := if StaysConfirmed(st.plans[i].status, outcome) then Confirmed else RevalidationRequired;
      Revalidate(st, i, outcome).value == st.(plans := st.plans[i := st.plans[i].(status := status)])
  {
  }

  predicate CanRetire(status: PlanStatus) {
    status == Obsolete || status == Proposed || status == Confirmed || status == RevalidationRequired
  }

  /** Obsoleting an obsolete plan changes nothing; one that may still be revised it retires with its sessions. */
  lemma ObsoleteMeans(st: Store, i: nat)
    ensures MarkObsolete(st, i).Ok? <==> i < |st.plans| && CanRetire(st.plans[i].status)
    ensures MarkObsolete(st, i).Ok? ==>
      var next := MarkObsolete(st, i).value;
      && |next.plans| == |st.plans| && next == st.(plans := st.plans[i := next.plans[i]])
      && PlanKeys.Retired(st.plans[i], next.plans[i])
  {
  }

  // ----- beginning an apply -----

  /** Target k is the session's only one. */
  predicate OnlyTarget(targets: seq<Target>, id: string, k: int) {
    && 0 <= k < |targets| && targets[k].sessionId == id
    && forall j | 0 <= j < |targets| && j != k :: targets[j].sessionId != id
  }

  lemma {:induction false} TargetsOfNone(targets: seq<Target>, id: string)
    ensures TargetsOf(targets, id) == [] <==> forall j | 0 <= j < |targets| :: targets[j].sessionId != id
  {
    if targets != [] {
      var n := |targets| - 1;
      TargetsOfNone(targets[..n], id);
      assert forall j | 0 <= j < n :: targets[..n][j] == targets[j];
    }
  }

  /** The stored targets of a session are one exactly when it has an only target, and then that one. */
  lemma {:induction false} OnlyTargetIff(targets: seq<Target>, id: string)
    ensures |TargetsOf(targets, id)| == 1 <==> exists k :: OnlyTarget(targets, id, k)
    ensures forall k | OnlyTarget(targets, id, k) :: TargetsOf(targets, id) == [targets[k]]
  {
    if targets != [] {
      var n := |targets| - 1;
      var init, last := targets[..n], targets[n];
      OnlyTargetIff(init, id);
      TargetsOfNone(init, id);
      if last.sessionId == id {
        forall k ensures OnlyTarget(targets, id, k) <==> k == n && TargetsOf(init, id) == [] {
          if k == n && TargetsOf(init, id) == [] {
            assert forall j | 0 <= j < n :: init[j] == targets[j];
          }
          if OnlyTarget(targets, id, k) {
            assert k == n;
            assert forall j | 0 <= j < n :: init[j] == targets[j];
          }
        }
        if TargetsOf(init, id) == [] {
          assert OnlyTarget(targets, id, n);
        }
      } else {
        forall k ensures OnlyTarget(targets, id, k) <==> OnlyTarget(init, id, k) {
          if OnlyTarget(init, id, k) {
            assert forall j | 0 <= j < n :: init[j] == targets[j];
          }
          if OnlyTarget(targets, id, k) {
            assert k < n && forall j | 0 <= j < n :: init[j] == targets[j];
          }
        }
        if exists k :: OnlyTarget(init, id, k) {
          var k :| OnlyTarget(init, id, k);
          assert OnlyTarget(targets, id, k);
        }
      }
    }
  }

  ghost predicate HasUsableTarget(p: Plan, id: string, usable: set<string>) {
    exists k :: OnlyTarget(p.targets, id, k) && p.targets[k].connection in usable
  }

  /** A session's event goes where its only target says, under the session's id. */
  lemma EventGoesToTarget(p: Plan, s: PlanSession, k: int)
    requires OnlyTarget(p.targets, s.id, k)
    ensures TargetsOf(p.targets, s.id) != []
    ensures TargetEvent(p, s) == Event(p.targets[k].connection, p.targets[k].calendarId, s.id)
  {
    OnlyTargetIff(p.targets, s.id);
  }

  /** An apply begins for a confirmed or partly applied plan whose unmapped sessions each have one usable target. */
  lemma BeginMeans(st: Store, i: nat, usable: set<string>)
    ensures ApplyBegin(st, i, usable).Ok? <==>
            && i < |st.plans| && (st.plans[i].status == Confirmed || st.plans[i].status == PartiallyApplied)
            && forall s | s in st.plans[i].sessions && s.mapping.None? :: HasUsableTarget(st.plans[i], s.id, usable)
    ensures ApplyBegin(st, i, usable).Ok? ==>
      var next := ApplyBegin(st, i, usable).value;
      && |next.plans| == |st.plans| && next == st.(plans := st.plans[i := next.plans[i]])
      && next.plans[i] == st.plans[i].(status := Applying, sessions := next.plans[i].sessions)
      && |next.plans[i].sessions| == |st.plans[i].sessions|
      && forall k :: 0 <= k < |st.plans[i].sessions| ==>
           var s := st.plans[i].sessions[k];
           next.plans[i].sessions[k] == s.(status := if s.mapping.Some? then SessionApplied else SessionApplying)
  {
    hide TargetsOf, OnlyTarget;
    if i < |st.plans| {
      var p := st.plans[i];
      forall s | s in p.sessions ensures HasTarget(p, s, usable) <==> HasUsableTarget(p, s.id, usable) {
        OnlyTargetIff(p.targets, s.id);
      }
    }
  }
}
