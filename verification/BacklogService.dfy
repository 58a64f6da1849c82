/**
  The backlog operations in their own form: entries updated in place, a refused change rolled
  back. Every operation keeps the store healthy and lets entries only evolve, and the changes
  of one entry succeed exactly when their contracts say.
 */
module BacklogService {
  import opened Prelude
  import opened Intervals
  import opened Backlog
  import BacklogRuns
  import Plans
  import Preview
  import Revalidation
  import Scheduler

  /** A healthy store stays healthy, and its entries evolve. */
  ghost predicate Keeps(before: Plans.Store, after: Plans.Store, tasks: Plans.Tasks) {
    BacklogRuns.Healthy(before, tasks) ==>
      BacklogRuns.Healthy(after, tasks) && BacklogRuns.EntriesEvolve(before.entries, after.entries)
  }

  /** The user's own entry is valid and open. */
  ghost predicate Editable(st: Plans.Store, tasks: Plans.Tasks, id: string, user: string) {
    && LookupError(st, tasks, id, user).None?
    && Plans.EntryValid(st.entries[id], tasks[st.entries[id].taskId].duration)
    && Plans.Open(st.entries[id].status)
  }

  lemma ChangeKeeps(st: Plans.Store, tasks: Plans.Tasks, id: string, user: string, op: Operation)
    ensures Keeps(st, st, tasks)
    ensures Change(st, tasks, id, user, op).Ok? ==> Keeps(st, Change(st, tasks, id, user, op).value, tasks)
  {
    hide BacklogRuns.Healthy, Change;
    if Change(st, tasks, id, user, op).Ok? && BacklogRuns.Healthy(st, tasks) {
      BacklogRuns.ChangeKeepsHealthy(st, tasks, id, user, op);
    }
  }

  lemma CreateKeeps(st: Plans.Store, tasks: Plans.Tasks, id: string, e: Entry)
    ensures Keeps(st, st, tasks)
    ensures CreateEntry(st, tasks, id, e).Ok? ==> Keeps(st, CreateEntry(st, tasks, id, e).value, tasks)
  {
    hide BacklogRuns.Healthy, CreateEntry;
    if CreateEntry(st, tasks, id, e).Ok? && BacklogRuns.Healthy(st, tasks) {
      BacklogRuns.CreateEntryKeepsHealthy(st, tasks, id, e);
    }
  }

  lemma PlanCreationKeeps(st: Plans.Store, tasks: Plans.Tasks, closed: bool, sel: Selection, ids: NewIds)
    ensures Keeps(st, st, tasks)
    ensures CreatePlan(st, tasks, closed, sel, ids).Ok? ==>
      Keeps(st, CreatePlan(st, tasks, closed, sel, ids).value.0, tasks)
  {
    hide BacklogRuns.Healthy, CreatePlan;
    if BacklogRuns.Healthy(st, tasks) {
      BacklogRuns.AfterKeepsHealthy(st, tasks, PlanCreation(closed, sel, ids));
    }
  }

  /** Which changes of an editable entry succeed. */
  lemma EditsSucceedWhen(st: Plans.Store, tasks: Plans.Tasks, id: string, user: string,
                         until: Option<int>, review: Option<int>, at: int, minutes: int, note: Option<string>)
    requires Editable(st, tasks, id, user)
    ensures var e := st.entries[id];
      && (e.status == Plans.Active ==>
            (Change(st, tasks, id, user, Defer(until, review, note)).Ok? <==>
               (until.Some? || review.Some?) && BacklogRuns.NoteFits(e, note)))
      && (Change(st, tasks, id, user, Reactivate).Ok? <==> e.status == Plans.Deferred)
      && (Change(st, tasks, id, user, UpdateRemaining(minutes)).Ok? <==>
            0 < minutes <= tasks[e.taskId].duration)
      && (Change(st, tasks, id, user, Resolve(at, note)).Ok? <==> BacklogRuns.NoteFits(e, note))
      && (Change(st, tasks, id, user, Cancel(note)).Ok? <==> BacklogRuns.NoteFits(e, note))
  {
    hide Changed, Plans.EntryValid, BacklogRuns.NoteFits;
    BacklogRuns.OperationsSucceedWhen(
      st.entries[id], tasks[st.entries[id].taskId].duration, until, review, at, minutes, note);
  }

  class BacklogStore {
    const tasks: Plans.Tasks
    var plans: seq<Plans.Plan>
    var entries: map<string, Entry>
    var events: set<Plans.Event>

    constructor (tasks: Plans.Tasks, st: Plans.Store)
      ensures this.tasks == tasks && State() == st
    {
      this.tasks := tasks;
      plans, entries, events := st.plans, st.entries, st.events;
    }

    function State(): Plans.Store
      reads this
    {
      Plans.Store(plans, entries, events)
    }

    /** `_locked_entry_and_task`. */
    method Locked(id: string, user: string) returns (r: Result<Entry, Failure>)
      ensures r.Err? ==> LookupError(State(), tasks, id, user) == Some(r.error)
      ensures r.Ok? ==> LookupError(State(), tasks, id, user).None? && r.value == entries[id]
    {
      if id !in entries || entries[id].user != user {
        return Err(EntryNotFound);
      }
      var entry := entries[id];
      if entry.taskId !in tasks {
        return Err(EntryNotFound);
      }
      if tasks[entry.taskId].user != user {
        return Err(WrongOwner);
      }
      return Ok(entry);
    }

    /** `_validate` and `_commit_entry`; a refused entry is rolled back. */
    method Commit(id: string, entry: Entry) returns (r: Result<(), Failure>)
      requires entry.taskId in tasks
      modifies this`entries
      ensures r.Err? <==> Checked(entry, tasks[entry.taskId].duration).Err?
      ensures r.Err? ==> r.error == InvalidValues && entries == old(entries)
      ensures r.Ok? ==> entries == old(entries)[id := entry]
    {
      hide Plans.EntryValid;
      if !Plans.EntryValid(entry, tasks[entry.taskId].duration) {
        return Err(InvalidValues);
      }
      entries := entries[id := entry];
      return Ok(());
    }

    // defer_backlog_entry
    method DeferBacklogEntry(id: string, user: string, until: Option<int>, review: Option<int>, note: Option<string>)
      returns (r: Result<(), Failure>)
      modifies this`entries
      ensures r.Err? ==> State() == old(State()) &&
                         Change(old(State()), tasks, id, user, Defer(until, review, note)) == Err(r.error)
      ensures r.Ok? ==> Change(old(State()), tasks, id, user, Defer(until, review, note)) == Ok(State())
      ensures Keeps(old(State()), State(), tasks)
      ensures Editable(old(State()), tasks, id, user) ==>
        old(entries)[id].status == Plans.Active ==>
          (r.Ok? <==> (until.Some? || review.Some?) && BacklogRuns.NoteFits(old(entries)[id], note))
    {
      hide Keeps, Editable, BacklogRuns.NoteFits;
      ChangeKeeps(State(), tasks, id, user, Defer(until, review, note));
      if Editable(State(), tasks, id, user) {
        EditsSucceedWhen(State(), tasks, id, user, until, review, 0, 0, note);
      }
      hide Plans.EntryValid;
      var found := Locked(id, user);
      if found.Err? {
        return Err(found.error);
      }
      var entry := found.value;
      if entry.status == Plans.Deferred {
        var sameDates := entry.deferredUntil == until && entry.nextReviewAt == review;
        if sameDates && (note.None? || entry.note == note) {
          entries := entries[id := entry];
          return Ok(());
        }
        if sameDates && note.Some? {
          entry := entry.(note := note);
          r := Commit(id, entry);
          return;
        }
        return Err(DatesNeedUpdate);
      }
      if !TransitionAllowed(entry.status, Plans.Deferred) {
        return Err(IllegalTransition);
      }
      entry := entry.(status := Plans.Deferred, deferredUntil := until, nextReviewAt := review);
      if note.Some? {
        entry := entry.(note := note);
      }
      r := Commit(id, entry);
    }

    // reactivate_backlog_entry
    method ReactivateBacklogEntry(id: string, user: string) returns (r: Result<(), Failure>)
      modifies this`entries
      ensures r.Err? ==> State() == old(State()) && Change(old(State()), tasks, id, user, Reactivate) == Err(r.error)
      ensures r.Ok? ==> Change(old(State()), tasks, id, user, Reactivate) == Ok(State())
      ensures Keeps(old(State()), State(), tasks)
      ensures Editable(old(State()), tasks, id, user) ==>
        (r.Ok? <==> old(entries)[id].status == Plans.Deferred)
    {
      hide Keeps, Editable, BacklogRuns.NoteFits;
      ChangeKeeps(State(), tasks, id, user, Reactivate);
      if Editable(State(), tasks, id, user) {
        EditsSucceedWhen(State(), tasks, id, user, None, None, 0, 0, None);
      }
      hide Plans.EntryValid;
      var found := Locked(id, user);
      if found.Err? {
        return Err(found.error);
      }
      var entry := found.value;
      if entry.status != Plans.Deferred {
        return Err(IllegalTransition);
      }
      entry := entry.(status := Plans.Active, deferredUntil := None);
      r := Commit(id, entry);
    }

    // update_remaining_duration
    method UpdateRemainingDuration(id: string, user: string, minutes: int) returns (r: Result<(), Failure>)
      modifies this`entries
      ensures r.Err? ==> State() == old(State()) &&
                         Change(old(State()), tasks, id, user, UpdateRemaining(minutes)) == Err(r.error)
      ensures r.Ok? ==> Change(old(State()), tasks, id, user, UpdateRemaining(minutes)) == Ok(State())
      ensures Keeps(old(State()), State(), tasks)
      ensures Editable(old(State()), tasks, id, user) ==>
        (r.Ok? <==> 0 < minutes <= tasks[old(entries)[id].taskId].duration)
    {
      hide Keeps, Editable, BacklogRuns.NoteFits;
      ChangeKeeps(State(), tasks, id, user, UpdateRemaining(minutes));
      if Editable(State(), tasks, id, user) {
        EditsSucceedWhen(State(), tasks, id, user, None, None, 0, minutes, None);
      }
      hide Plans.EntryValid;
      var found := Locked(id, user);
      if found.Err? {
        return Err(found.error);
      }
      var entry := found.value;
      if entry.remaining == minutes {
        entries := entries[id := entry];
        return Ok(());
      }
      entry := entry.(remaining := minutes);
      r := Commit(id, entry);
    }

    // resolve_backlog_entry
    method ResolveBacklogEntry(id: string, user: string, at: int, note: Option<string>) returns (r: Result<(), Failure>)
      modifies this`entries
      ensures r.Err? ==>
        State() == old(State()) && Change(old(State()), tasks, id, user, Resolve(at, note)) == Err(r.error)
      ensures r.Ok? ==> Change(old(State()), tasks, id, user, Resolve(at, note)) == Ok(State())
      ensures Keeps(old(State()), State(), tasks)
      ensures Editable(old(State()), tasks, id, user) ==>
        (r.Ok? <==> BacklogRuns.NoteFits(old(entries)[id], note))
    {
      hide Keeps, Editable, BacklogRuns.NoteFits;
      ChangeKeeps(State(), tasks, id, user, Resolve(at, note));
      if Editable(State(), tasks, id, user) {
        EditsSucceedWhen(State(), tasks, id, user, None, None, at, 0, note);
      }
      hide Plans.EntryValid;
      var found := Locked(id, user);
      if found.Err? {
        return Err(found.error);
      }
      var entry := found.value;
      if entry.status == Plans.Resolved {
        entries := entries[id := entry];
        return Ok(());
      }
      if !TransitionAllowed(entry.status, Plans.Resolved) {
        return Err(IllegalTransition);
      }
      entry := entry.(status := Plans.Resolved, remaining := 0, resolvedAt := Some(at));
      if note.Some? {
        entry := entry.(note := note);
      }
      r := Commit(id, entry);
    }

    // cancel_backlog_entry
    method CancelBacklogEntry(id: string, user: string, note: Option<string>) returns (r: Result<(), Failure>)
      modifies this`entries
      ensures r.Err? ==> State() == old(State()) && Change(old(State()), tasks, id, user, Cancel(note)) == Err(r.error)
      ensures r.Ok? ==> Change(old(State()), tasks, id, user, Cancel(note)) == Ok(State())
      ensures Keeps(old(State()), State(), tasks)
      ensures Editable(old(State()), tasks, id, user) ==>
        (r.Ok? <==> BacklogRuns.NoteFits(old(entries)[id], note))
    {
      hide Keeps, Editable, BacklogRuns.NoteFits;
      ChangeKeeps(State(), tasks, id, user, Cancel(note));
      if Editable(State(), tasks, id, user) {
        EditsSucceedWhen(State(), tasks, id, user, None, None, 0, 0, note);
      }
      hide Plans.EntryValid;
      var found := Locked(id, user);
      if found.Err? {
        return Err(found.error);
      }
      var entry := found.value;
      if entry.status == Plans.Cancelled {
        entries := entries[id := entry];
        return Ok(());
      }
      if !TransitionAllowed(entry.status, Plans.Cancelled) {
        return Err(IllegalTransition);
      }
      entry := entry.(status := Plans.Cancelled, remaining := 0, resolvedAt := None);
      if note.Some? {
        entry := entry.(note := note);
      }
      r := Commit(id, entry);
    }

    // create_backlog_entry
    method CreateBacklogEntry(id: string, e: Entry) returns (r: Result<(), Failure>)
      modifies this`entries
      ensures r.Err? ==> State() == old(State()) && CreateEntry(old(State()), tasks, id, e) == Err(r.error)
      ensures r.Ok? ==> CreateEntry(old(State()), tasks, id, e) == Ok(State())
      ensures Keeps(old(State()), State(), tasks)
    {
      hide Keeps;
      CreateKeeps(State(), tasks, id, e);
      hide Plans.EntryValid;
      if e.taskId !in tasks {
        return Err(EntryNotFound);
      }
      if tasks[e.taskId].user != e.user {
        return Err(WrongOwner);
      }
      if exists x | x in entries :: OpenFor(entries[x], e.taskId) {
        if exists x | x in entries :: OpenFor(entries[x], e.taskId) && Equivalent(entries[x], e) {
          return Ok(());
        }
        return Err(AlreadyOpen);
      }
      var entry := e.(attempts := 0, resolvedAt := None);
      if !Plans.EntryValid(entry, tasks[entry.taskId].duration) {
        return Err(InvalidValues);
      }
      if id in entries {
        return Err(IdTaken);
      }
      entries := entries[id := entry];
      return Ok(());
    }

    /**
      preview_backlog_entry_schedule: the entry's task, as the scheduler reads it, previewed for
      the remaining work; only the attempt is stored.
     */
    method PreviewBacklogEntrySchedule(
      id: string, user: string, taskClosed: bool, model: Scheduler.Task,
      planning: TimeInterval, busy: seq<TimeInterval>,
      rows: seq<Revalidation.StoredSession>, prefs: Preview.UserPreferences)
      returns (r: Result<(int, Preview.SchedulePreview), Failure>)
      modifies this`entries
      ensures r.Err? ==> State() == old(State())
      ensures var error := LookupError(old(State()), tasks, id, user);
        if error.Some? then r == Err(error.value)
        else
          var e := old(entries)[id];
          r == Err(NotAllowed) <==>
            || !Plans.Open(e.status) || taskClosed
            || Plans.RemainingWork(tasks[e.taskId].duration, old(plans), e.taskId) == 0
      ensures r.Ok? ==>
        && Change(old(State()), tasks, id, user, RecordAttempt) == Ok(State())
        && id in entries && entries[id].taskId in tasks
        && r.value.0 == Plans.RemainingWork(tasks[entries[id].taskId].duration, old(plans), entries[id].taskId) > 0
        && Preview.IsPreview(
             r.value.1, planning, busy + Preview.RowSpans(Preview.ReservedRows(rows, user, planning)),
             [model.(duration := r.value.0)], prefs)
      ensures Keeps(old(State()), State(), tasks)
    {
      hide Keeps;
      ChangeKeeps(State(), tasks, id, user, RecordAttempt);
      hide Plans.EntryValid, Plans.Reserved, Preview.IsPreview;
      var found := Locked(id, user);
      if found.Err? {
        return Err(found.error);
      }
      var entry := found.value;
      if !Plans.Open(entry.status) || taskClosed {
        return Err(NotAllowed);
      }
      var remaining := Plans.RemainingWork(tasks[entry.taskId].duration, plans, entry.taskId);
      if remaining == 0 {
        return Err(NotAllowed);
      }
      var preview := Preview.PreviewWithReservations(
        planning, busy, rows, user, [model.(duration := remaining)], prefs);
      if preview.Err? {
        return Err(PreviewFailed(preview.error));
      }
      entry := entry.(attempts := entry.attempts + 1);
      var committed := Commit(id, entry);
      if committed.Err? {
        return Err(committed.error);
      }
      return Ok((remaining, preview.value));
    }

    // create_backlog_schedule_plan
    method CreateBacklogSchedulePlan(taskClosed: bool, sel: Selection, ids: NewIds) returns (r: Result<nat, Failure>)
      modifies this
      ensures r.Err? ==>
        State() == old(State()) && CreatePlan(old(State()), tasks, taskClosed, sel, ids) == Err(r.error)
      ensures r.Ok? ==> CreatePlan(old(State()), tasks, taskClosed, sel, ids) == Ok((State(), r.value))
      ensures Keeps(old(State()), State(), tasks)
    {
      hide Keeps;
      PlanCreationKeeps(State(), tasks, taskClosed, sel, ids);
      hide Plans.Create, Plans.RemainingWork, Preview.Validated;
      var found := Locked(sel.entryId, sel.user);
      if found.Err? {
        return Err(found.error);
      }
      var entry := found.value;
      if !Plans.Open(entry.status) || taskClosed {
        return Err(NotAllowed);
      }
      if entry.attempts != sel.attempts {
        return Err(StalePreview);
      }
      if sel.contextConnection != Some(sel.previewConnection) {
        return Err(WrongConnection);
      }
      var remaining := Plans.RemainingWork(tasks[entry.taskId].duration, plans, entry.taskId);
      if remaining == 0 {
        return Err(NothingRemaining);
      }
      if exists t | t in sel.blockTasks :: t != entry.taskId {
        return Err(WrongTask);
      }
      var sessions := Preview.ValidatePreview(Some(remaining), sel.preview, sel.context);
      if sessions.Err? {
        return Err(PreviewRefused(sessions.error));
      }
      var created := Plans.Create(State(), tasks, PlanRequest(sel, entry.taskId, sessions.value, ids));
      if created.Err? {
        return Err(PlanRefused(created.error));
      }
      var (st, i) := created.value;
      plans, entries, events := st.plans, st.entries, st.events;
      return Ok(i);
    }
  }
}
