/**
  What every run of backlog and plan commands keeps, and the way from a preview of an entry
  to its confirmed plan.
 */
module BacklogRuns {
  import opened Prelude
  import opened Sorting
  import opened Intervals
  import opened Backlog
  import BacklogMinutes
  import PlanRuns
  import Plans
  import Preview
  import PreviewTheorems
  import Scheduler

  // ----- one entry -----

  /**
    Identity is fixed, attempts only count up, the status follows the transition table, and a
    closed entry never changes again.
   */
  ghost predicate EntryEvolves(e: Entry, f: Entry) {
    && f.user == e.user && f.taskId == e.taskId
    && e.attempts <= f.attempts
    && (f.status == e.status || TransitionAllowed(e.status, f.status))
    && (!Plans.Open(e.status) ==> f == e)
  }

  /** Every operation on a valid entry that succeeds leaves a valid entry that evolved. */
  lemma ChangedEvolves(e: Entry, duration: int, op: Operation)
    requires Plans.EntryValid(e, duration)
    ensures var r := Changed(e, duration, op);
      r.Ok? ==> Plans.EntryValid(r.value, duration) && EntryEvolves(e, r.value)
  {
    hide Plans.Meaningful;
    match op
    case Defer(until, review, note) =>
    case Reactivate =>
    case UpdateRemaining(minutes) =>
    case Resolve(at, note) =>
    case Cancel(note) =>
    case RecordAttempt =>
  }

  /** A note that may stand in for the old one: only the reason `other` asks for one. */
  predicate NoteFits(e: Entry, note: Option<string>) {
    e.reason == Plans.OtherReason ==> Plans.Meaningful(NoteOr(note, e.note))
  }

  /** When the operations on a valid open entry succeed. */
  lemma OperationsSucceedWhen(
    e: Entry, duration: int, until: Option<int>, review: Option<int>, at: int, minutes: int, note: Option<string>)
    requires Plans.EntryValid(e, duration) && Plans.Open(e.status)
    ensures e.status == Plans.Active ==>
      (Changed(e, duration, Defer(until, review, note)).Ok? <==> (until.Some? || review.Some?) && NoteFits(e, note))
    ensures Changed(e, duration, Reactivate).Ok? <==> e.status == Plans.Deferred
    ensures Changed(e, duration, UpdateRemaining(minutes)).Ok? <==> 0 < minutes <= duration
    ensures Changed(e, duration, Resolve(at, note)).Ok? <==> NoteFits(e, note)
    ensures Changed(e, duration, Cancel(note)).Ok? <==> NoteFits(e, note)
    ensures Changed(e, duration, RecordAttempt).Ok?
  {
    hide Plans.Meaningful;
  }

  /** Deferring and reactivating gives the entry back, apart from its dates. */
  lemma DeferThenReactivate(e: Entry, duration: int, until: Option<int>, review: Option<int>)
    requires Plans.EntryValid(e, duration) && e.status == Plans.Active
    requires Changed(e, duration, Defer(until, review, None)).Ok?
    ensures Changed(Changed(e, duration, Defer(until, review, None)).value, duration, Reactivate) ==
            Result.Ok(e.(deferredUntil := None, nextReviewAt := review))
  {
    hide Plans.Meaningful;
  }

  // ----- the store -----

  ghost predicate EntryHealthy(e: Entry, tasks: Plans.Tasks) {
    e.taskId in tasks && tasks[e.taskId].user == e.user && Plans.EntryValid(e, tasks[e.taskId].duration)
  }

  ghost predicate OneOpenPerTask(entries: map<string, Entry>) {
    forall a, b | a in entries && b in entries ::
      Plans.Open(entries[a].status) && OpenFor(entries[b], entries[a].taskId) ==> a == b
  }

  ghost predicate PositivePlans(plans: seq<Plans.Plan>) {
    forall p | p in plans :: BacklogMinutes.PositiveMinutes(p)
  }

  /** Valid entries of existing tasks, at most one open per task, and plans of positive sessions. */
  ghost predicate Healthy(st: Plans.Store, tasks: Plans.Tasks) {
    && (forall id | id in st.entries :: EntryHealthy(st.entries[id], tasks))
    && OneOpenPerTask(st.entries)
    && PositivePlans(st.plans)
  }

  ghost predicate EntriesEvolve(a: map<string, Entry>, b: map<string, Entry>) {
    a.Keys <= b.Keys && forall id | id in a :: EntryEvolves(a[id], b[id])
  }

  /** Replacing an entry by one that evolved from it opens none. */
  lemma UpdateEntry(entries: map<string, Entry>, tasks: Plans.Tasks, id: string, f: Entry)
    requires id in entries && EntryEvolves(entries[id], f) && EntryHealthy(f, tasks)
    requires OneOpenPerTask(entries) && forall x | x in entries :: EntryHealthy(entries[x], tasks)
    ensures var next := entries[id := f];
      EntriesEvolve(entries, next) && OneOpenPerTask(next) && forall x | x in next :: EntryHealthy(next[x], tasks)
  {
    hide EntryHealthy;
    var next := entries[id := f];
    forall a, b | a in next && b in next && Plans.Open(next[a].status) && OpenFor(next[b], next[a].taskId)
      ensures a == b
    {
      assert Plans.Open(entries[a].status) && OpenFor(entries[b], entries[a].taskId);
    }
  }

  lemma {:induction false} ChangeKeepsHealthy(
    st: Plans.Store, tasks: Plans.Tasks, id: string, user: string, op: Operation)
    requires Healthy(st, tasks) && Change(st, tasks, id, user, op).Ok?
    ensures Healthy(Change(st, tasks, id, user, op).value, tasks)
    ensures EntriesEvolve(st.entries, Change(st, tasks, id, user, op).value.entries)
  {
    hide Changed, Plans.EntryValid, OneOpenPerTask, EntryEvolves, PositivePlans;
    var e := st.entries[id];
    ChangedEvolves(e, tasks[e.taskId].duration, op);
    var f := Changed(e, tasks[e.taskId].duration, op).value;
    SameOwner(e, f);
    UpdateEntry(st.entries, tasks, id, f);
  }

  lemma SameOwner(e: Entry, f: Entry)
    requires EntryEvolves(e, f)
    ensures f.taskId == e.taskId && f.user == e.user
  {
  }

  lemma CreateEntryKeepsHealthy(st: Plans.Store, tasks: Plans.Tasks, id: string, e: Entry)
    requires Healthy(st, tasks) && CreateEntry(st, tasks, id, e).Ok?
    ensures Healthy(CreateEntry(st, tasks, id, e).value, tasks)
    ensures EntriesEvolve(st.entries, CreateEntry(st, tasks, id, e).value.entries)
  {
    hide Plans.EntryValid, PositivePlans, Equivalent;
    var next := CreateEntry(st, tasks, id, e).value;
    if next != st {
      assert forall x | x in st.entries :: !OpenFor(st.entries[x], e.taskId);
      assert forall x | x in next.entries && x != id :: next.entries[x] == st.entries[x];
    }
  }

  lemma NextKeepsPositive(st: Plans.Store, tasks: Plans.Tasks, step: Plans.Step)
    requires PositivePlans(st.plans)
    ensures PositivePlans(Plans.Next(st, tasks, step).plans)
  {
    hide Plans.Next;
    var next := Plans.Next(st, tasks, step).plans;
    PlanRuns.NextEvolves(st, tasks, step);
    NewPlanPositive(st, tasks, step);
    forall i | 0 <= i < |next| ensures BacklogMinutes.PositiveMinutes(next[i]) {
      if i < |st.plans| {
        assert PlanRuns.Evolves(st.plans[i], next[i]);
        assert st.plans[i] in st.plans;
        EvolvedPositive(st.plans[i], next[i]);
      }
    }
  }

  lemma EvolvedPositive(p: Plans.Plan, q: Plans.Plan)
    requires PlanRuns.Evolves(p, q) && BacklogMinutes.PositiveMinutes(p)
    ensures BacklogMinutes.PositiveMinutes(q)
  {
    forall s | s in q.sessions ensures s.minutes > 0 {
      var k :| 0 <= k < |q.sessions| && q.sessions[k] == s;
      assert PlanRuns.SessionEvolves(p.sessions[k], s) && p.sessions[k] in p.sessions;
    }
  }

  lemma NewPlanPositive(st: Plans.Store, tasks: Plans.Tasks, step: Plans.Step)
    ensures var next := Plans.Next(st, tasks, step).plans;
      |next| > |st.plans| ==> BacklogMinutes.PositiveMinutes(next[|st.plans|])
  {
    hide Plans.Confirm, Plans.RequestError, Plans.LatestInGroup, Plans.TargetsResolve, Plans.ResultingStatus;
    if step.CreateStep? && step.req.Valid() {
      RequestPositive(step.req);
    }
    if step.ConfirmStep? {
      PlanRuns.NextEvolves(st, tasks, step);
      ConfirmKeepsCount(st, tasks, step.plan, step.now);
    }
  }

  lemma ConfirmKeepsCount(st: Plans.Store, tasks: Plans.Tasks, i: nat, now: int)
    ensures |Plans.Kept(st, Plans.Confirm(st, tasks, i, now)).plans| == |st.plans|
  {
    hide Plans.EntryValid, Plans.BacklogError, Plans.UpdatedEntry, Plans.RemainingWork;
  }

  lemma RequestPositive(req: Plans.Request)
    requires req.Valid()
    ensures forall version :: BacklogMinutes.PositiveMinutes(Plans.NewPlan(req, version))
  {
    forall version, s | s in Plans.NewPlan(req, version).sessions ensures s.minutes > 0 {
      var k :| 0 <= k < |req.minutes| && Plans.NewSessions(req)[k] == s;
      assert req.minutes[k] in req.minutes;
    }
  }

  /** A plan step touches an entry only when it confirms a linked plan. */
  lemma {:induction false} NextKeepsEntries(st: Plans.Store, tasks: Plans.Tasks, step: Plans.Step)
    requires Healthy(st, tasks)
    ensures var next := Plans.Next(st, tasks, step);
      && EntriesEvolve(st.entries, next.entries)
      && OneOpenPerTask(next.entries)
      && forall id | id in next.entries :: EntryHealthy(next.entries[id], tasks)
  {
    hide Plans.Confirm, PositivePlans, OneOpenPerTask, EntryHealthy, Plans.RequestError, Plans.LatestInGroup,
         Plans.TargetsResolve, Plans.ResultingStatus;
    if step.ConfirmStep? {
      ConfirmKeepsEntries(st, tasks, step.plan, step.now);
    } else {
      assert Plans.Next(st, tasks, step).entries == st.entries;
    }
  }

  lemma ConfirmKeepsEntries(st: Plans.Store, tasks: Plans.Tasks, i: nat, now: int)
    requires Healthy(st, tasks)
    ensures var next := Plans.Kept(st, Plans.Confirm(st, tasks, i, now));
      && EntriesEvolve(st.entries, next.entries)
      && OneOpenPerTask(next.entries)
      && forall id | id in next.entries :: EntryHealthy(next.entries[id], tasks)
  {
    hide Plans.EntryValid, PositivePlans, OneOpenPerTask, Plans.Reserved;
    var r := Plans.Confirm(st, tasks, i, now);
    if r.Ok? && st.plans[i].status == Plans.Proposed && st.plans[i].backlogId.Some? {
      var id := st.plans[i].backlogId.value;
      UpdateEntry(st.entries, tasks, id, r.value.entries[id]);
    }
  }

  /** Every command keeps the store healthy, and its entries evolve. */
  lemma AfterKeepsHealthy(st: Plans.Store, tasks: Plans.Tasks, command: Command)
    requires Healthy(st, tasks)
    ensures Healthy(After(st, tasks, command), tasks)
    ensures EntriesEvolve(st.entries, After(st, tasks, command).entries)
  {
    hide Plans.Next, Change, CreateEntry, Plans.Create, EntryHealthy, OneOpenPerTask, PositivePlans;
    match command {
      case PlanCommand(step) =>
        NextKeepsPositive(st, tasks, step);
        NextKeepsEntries(st, tasks, step);
      case EntryCommand(id, user, op) =>
        if Change(st, tasks, id, user, op).Ok? {
          ChangeKeepsHealthy(st, tasks, id, user, op);
        }
      case EntryCreation(id, entry) =>
        if CreateEntry(st, tasks, id, entry).Ok? {
          CreateEntryKeepsHealthy(st, tasks, id, entry);
        }
      case PlanCreation(closed, sel, ids) =>
        var req := CreationIsStep(st, tasks, closed, sel, ids);
        NextKeepsPositive(st, tasks, Plans.CreateStep(req));
        NextKeepsEntries(st, tasks, Plans.CreateStep(req));
    }
  }

  /** Creating a plan from a backlog preview is creating a plan, or nothing. */
  lemma {:induction false} CreationIsStep(
    st: Plans.Store, tasks: Plans.Tasks, closed: bool, sel: Selection, ids: NewIds)
    returns (req: Plans.Request)
    ensures After(st, tasks, PlanCreation(closed, sel, ids)) == st ||
            After(st, tasks, PlanCreation(closed, sel, ids)) == Plans.Next(st, tasks, Plans.CreateStep(req))
  {
    hide Plans.Create, SelectionError, Preview.Validated;
    req := PlanRequest(sel, "", [], ids);
    if SelectionError(st, tasks, closed, sel).None? {
      var taskId := TaskOfSelection(st, tasks, closed, sel);
      var sessions := Preview.Validated(
        Some(Plans.RemainingWork(tasks[taskId].duration, st.plans, taskId)), sel.preview, sel.context);
      if sessions.Ok? {
        req := PlanRequest(sel, taskId, sessions.value, ids);
      }
    }
  }

  lemma TaskOfSelection(st: Plans.Store, tasks: Plans.Tasks, closed: bool, sel: Selection) returns (taskId: string)
    requires SelectionError(st, tasks, closed, sel).None?
    ensures sel.entryId in st.entries && taskId == st.entries[sel.entryId].taskId && taskId in tasks
    ensures tasks[taskId].user == sel.user == st.entries[sel.entryId].user
    ensures Plans.Open(st.entries[sel.entryId].status)
  {
    taskId := st.entries[sel.entryId].taskId;
  }

  /**
    Over any run of both services: entries stay valid, a task never has two open entries, and
    a closed entry is never changed again.
   */
  lemma {:induction false} RunKeepsHealthy(st: Plans.Store, tasks: Plans.Tasks, commands: seq<Command>, id: string)
    requires Healthy(st, tasks)
    ensures Healthy(RunCommands(st, tasks, commands), tasks)
    ensures id in st.entries ==>
      var end := RunCommands(st, tasks, commands).entries;
      id in end && st.entries[id].attempts <= end[id].attempts
      && (!Plans.Open(st.entries[id].status) ==> end[id] == st.entries[id])
  {
    hide After, Healthy, Plans.Open, TransitionAllowed;
    if commands != [] {
      var init, last := commands[..|commands| - 1], commands[|commands| - 1];
      RunKeepsHealthy(st, tasks, init, id);
      AfterKeepsHealthy(RunCommands(st, tasks, init), tasks, last);
    }
  }

  /** So in every reachable state the closing validation of a confirmation cannot fail. */
  lemma {:induction false} ClosingValidationNeverFails(
    st: Plans.Store, tasks: Plans.Tasks, commands: seq<Command>, i: nat, now: int)
    requires Healthy(st, tasks)
    ensures Plans.Confirm(RunCommands(st, tasks, commands), tasks, i, now) != Result.Err(Plans.ClosingValidation)
  {
    hide RunCommands, Plans.EntryValid, OneOpenPerTask;
    RunKeepsHealthy(st, tasks, commands, "");
    var end := RunCommands(st, tasks, commands);
    if i < |end.plans| {
      BacklogMinutes.ConfirmNeverFailsClosing(end, tasks, i, now);
    }
  }

  /** A preview older than the last attempt is refused in every later state. */
  lemma {:induction false} OlderPreviewStaysRefused(
    st: Plans.Store, tasks: Plans.Tasks, commands: seq<Command>, closed: bool, sel: Selection, ids: NewIds)
    requires Healthy(st, tasks)
    requires sel.entryId in st.entries && sel.attempts < st.entries[sel.entryId].attempts
    ensures CreatePlan(RunCommands(st, tasks, commands), tasks, closed, sel, ids).Err?
  {
    hide RunCommands, Healthy, Plans.RemainingWork, Plans.Open;
    RunKeepsHealthy(st, tasks, commands, sel.entryId);
    assert SelectionError(RunCommands(st, tasks, commands), tasks, closed, sel).Some?;
  }

  // ----- from a preview of an entry to its confirmed plan -----

  lemma {:induction false} RequestMinutes(sessions: seq<Preview.Normalized>, planned: seq<Plans.PlanSession>)
    requires |planned| == |sessions|
    requires forall k :: 0 <= k < |sessions| ==> planned[k].minutes == sessions[k].minutes
    ensures SumBy(planned, Plans.AllMinutes) == SumBy(sessions, Preview.StoredMinutes)
  {
    if sessions != [] {
      RequestMinutes(sessions[..|sessions| - 1], planned[..|planned| - 1]);
    }
  }

  /** A proposed plan reserves nothing. */
  lemma ProposedReservesNothing(plans: seq<Plans.Plan>, p: Plans.Plan, taskId: string)
    requires p.status == Plans.Proposed
    ensures Plans.Reserved(plans + [p], taskId) == Plans.Reserved(plans, taskId)
  {
    assert (plans + [p])[..|plans|] == plans;
  }

  /** What a successful creation adds, for a key not used before. */
  lemma {:induction false} CreatedPlan(st: Plans.Store, tasks: Plans.Tasks, closed: bool, sel: Selection, ids: NewIds)
    returns (taskId: string, p: Plans.Plan)
    requires CreatePlan(st, tasks, closed, sel, ids).Ok? && Plans.WithKey(st.plans, ids.key).None?
    ensures CreatePlan(st, tasks, closed, sel, ids).value == (st.(plans := st.plans + [p]), |st.plans|)
    ensures sel.entryId in st.entries && taskId == st.entries[sel.entryId].taskId && taskId in tasks
    ensures tasks[taskId].user == sel.user == st.entries[sel.entryId].user
    ensures Plans.Open(st.entries[sel.entryId].status)
    ensures p.status == Plans.Proposed && p.user == sel.user
    ensures p.taskId == Some(taskId) && p.backlogId == Some(sel.entryId)
    ensures BacklogMinutes.PositiveMinutes(p) && p.sessions != []
    ensures SumBy(p.sessions, Plans.AllMinutes) <= Plans.RemainingWork(tasks[taskId].duration, st.plans, taskId)
  {
    hide SelectionError, Preview.Validated, Plans.RemainingWork, Plans.Reserved;
    taskId := TaskOfSelection(st, tasks, closed, sel);
    var remaining := Plans.RemainingWork(tasks[taskId].duration, st.plans, taskId);
    var sessions := Preview.Validated(Some(remaining), sel.preview, sel.context).value;
    var req := PlanRequest(sel, taskId, sessions, ids);
    p := Plans.NewPlan(req, 1);
    RequestPositive(req);
    RequestMinutes(sessions, p.sessions);
    StoredTotal(remaining, sel.preview, sel.context);
  }

  lemma {:induction false} StoredTotal(remaining: int, preview: Preview.PreviewResponse, context: Preview.Context)
    requires Preview.Validated(Some(remaining), preview, context).Ok?
    ensures SumBy(Preview.Validated(Some(remaining), preview, context).value, Preview.StoredMinutes) <= remaining
  {
    hide Preview.CheckBlocks, SumBy;
  }

  /**
    A plan created from a selected preview can be confirmed at once: its minutes fit the
    remaining work, no check and no validation can fail, and the remaining work drops by
    exactly the plan's minutes.
   */
  lemma {:induction false} SelectedPreviewConfirms(
    st: Plans.Store, tasks: Plans.Tasks, closed: bool, sel: Selection, ids: NewIds, now: int)
    requires Healthy(st, tasks)
    requires CreatePlan(st, tasks, closed, sel, ids).Ok? && Plans.WithKey(st.plans, ids.key).None?
    ensures var created := CreatePlan(st, tasks, closed, sel, ids).value;
      && created.1 < |created.0.plans| && sel.entryId in created.0.entries
      && created.0.entries[sel.entryId].taskId in tasks
      && Plans.Confirm(created.0, tasks, created.1, now).Ok?
      && var next := Plans.Confirm(created.0, tasks, created.1, now).value;
         var taskId := created.0.entries[sel.entryId].taskId;
         var duration := tasks[taskId].duration;
         && Plans.RemainingWork(duration, next.plans, taskId) ==
            Plans.RemainingWork(duration, st.plans, taskId)
            - SumBy(created.0.plans[created.1].sessions, Plans.AllMinutes)
         && sel.entryId in next.entries
         && next.entries[sel.entryId].remaining == Plans.RemainingWork(duration, next.plans, taskId)
  {
    hide CreatePlan, Plans.Reserved, Plans.WithKey, OneOpenPerTask, Plans.EntryValid, Plans.Confirm;
    var taskId, p := CreatedPlan(st, tasks, closed, sel, ids);
    var next, i := CreatePlan(st, tasks, closed, sel, ids).value.0, CreatePlan(st, tasks, closed, sel, ids).value.1;
    assert next.plans[i] == p;
    ProposedReservesNothing(st.plans, p, taskId);
    OpenHasDuration(st.entries[sel.entryId], tasks[taskId].duration);
    assert Plans.BacklogError(next, tasks, p).None?;
    BacklogMinutes.ConfirmNeverFailsClosing(next, tasks, i, now);
    ConfirmSucceeds(next, tasks, i, now);
    BacklogMinutes.ConfirmAccountsMinutes(next, tasks, i, now);
  }

  lemma OpenHasDuration(e: Entry, duration: int)
    requires Plans.EntryValid(e, duration) && Plans.Open(e.status)
    ensures duration > 0
  {
  }

  /** The checks passed and the validation held: nothing else can fail. */
  lemma ConfirmSucceeds(st: Plans.Store, tasks: Plans.Tasks, i: nat, now: int)
    requires i < |st.plans| && st.plans[i].status == Plans.Proposed && st.plans[i].backlogId.Some?
    requires Plans.BacklogError(st, tasks, st.plans[i]).None?
    requires Plans.Confirm(st, tasks, i, now) != Result.Err(Plans.ClosingValidation)
    ensures Plans.Confirm(st, tasks, i, now).Ok?
  {
    hide Plans.EntryValid, Plans.UpdatedEntry, Plans.RemainingWork;
  }

  /**
    End to end for a backlog entry. A preview of the entry's remaining work with at least one
    block, sent back unchanged while nothing else has happened, becomes a plan and the plan
    can be confirmed.
   */
  lemma {:induction false} BacklogPreviewToConfirmation(
    st: Plans.Store, tasks: Plans.Tasks, sel: Selection, ids: NewIds, now: int,
    p: Preview.SchedulePreview, planning: TimeInterval, busy: seq<TimeInterval>, task: Scheduler.Task,
    prefs: Preview.UserPreferences)
    requires Healthy(st, tasks)
    requires LookupError(st, tasks, sel.entryId, sel.user).None? && Plans.Open(st.entries[sel.entryId].status)
    requires sel.attempts == st.entries[sel.entryId].attempts && sel.contextConnection == Some(sel.previewConnection)
    requires task.id == st.entries[sel.entryId].taskId
    requires task.duration == Plans.RemainingWork(tasks[task.id].duration, st.plans, task.id)
    requires Scheduler.TaskValid(task) && p.result.blocks != []
    requires Preview.IsPreview(p, planning, busy, [task], prefs)
    requires sel.preview == PreviewTheorems.Response(p)
    requires sel.context == Preview.Context(Preview.SCHEDULER_VERSION, planning)
    requires sel.blockTasks ==
             seq(|p.result.blocks|, k requires 0 <= k < |p.result.blocks| => p.result.blocks[k].taskId)
    requires Plans.WithKey(st.plans, ids.key).None?
    ensures CreatePlan(st, tasks, false, sel, ids).Ok?
    ensures var created := CreatePlan(st, tasks, false, sel, ids).value;
      Plans.Confirm(created.0, tasks, created.1, now).Ok?
  {
    hide Healthy, Preview.IsPreview, Preview.Validated, Plans.RemainingWork, Plans.WithKey, PreviewTheorems.Response,
         Plans.Confirm;
    PreviewTheorems.PreviewPassesValidation(p, planning, busy, task, prefs);
    PreviewTheorems.ValidatedIsStorable(Some(task.duration), sel.preview, sel.context);
    BlocksOfTask(p, planning, busy, task, prefs);
    assert SelectionError(st, tasks, false, sel).None?;
    CreationSucceeds(st, tasks, sel, ids);
    SelectedPreviewConfirms(st, tasks, false, sel, ids, now);
  }

  lemma {:induction false} BlocksOfTask(
    p: Preview.SchedulePreview, planning: TimeInterval, busy: seq<TimeInterval>, task: Scheduler.Task,
    prefs: Preview.UserPreferences)
    requires Preview.IsPreview(p, planning, busy, [task], prefs)
    ensures forall k :: 0 <= k < |p.result.blocks| ==> p.result.blocks[k].taskId == task.id
  {
    hide Preview.IsPreview;
    PreviewTheorems.PreviewBlocksAreClear(p, planning, busy, [task], prefs);
    forall k | 0 <= k < |p.result.blocks| ensures p.result.blocks[k].taskId == task.id {
      assert p.result.blocks[k] in p.result.blocks;
    }
  }

  lemma {:induction false} CreationSucceeds(st: Plans.Store, tasks: Plans.Tasks, sel: Selection, ids: NewIds)
    requires SelectionError(st, tasks, false, sel).None? && Plans.WithKey(st.plans, ids.key).None?
    requires var taskId := st.entries[sel.entryId].taskId;
      var validated :=
        Preview.Validated(
          Some(Plans.RemainingWork(tasks[taskId].duration, st.plans, taskId)), sel.preview, sel.context);
      && validated.Ok? && Preview.MinutesOf(validated.value) != []
      && forall m | m in Preview.MinutesOf(validated.value) :: m > 0
    ensures CreatePlan(st, tasks, false, sel, ids).Ok?
  {
    hide Preview.Validated, Plans.RemainingWork, Plans.WithKey, SelectionError;
    var taskId := TaskOfSelection(st, tasks, false, sel);
    var sessions := Preview.Validated(
      Some(Plans.RemainingWork(tasks[taskId].duration, st.plans, taskId)), sel.preview, sel.context).value;
    var req := PlanRequest(sel, taskId, sessions, ids);
    assert req.Valid();
  }
}
