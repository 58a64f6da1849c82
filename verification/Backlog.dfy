/**
  app/backlog/service.py and domain.py: the life of a backlog entry, and the plan made from a
  preview of it.
 */
module Backlog {
  import opened Prelude
  import Plans
  import Preview

  type Entry = Plans.Entry

  datatype Failure =
    | EntryNotFound
    | WrongOwner
    | IdTaken
    | AlreadyOpen
    | InvalidValues
    | IllegalTransition
    | DatesNeedUpdate
    | NotAllowed
    | StalePreview
    | WrongConnection
    | NothingRemaining
    | WrongTask
    | PreviewFailed(failure: Preview.PreviewFailure)
    | PreviewRefused(previewError: Preview.PreviewError)
    | PlanRefused(planError: Plans.Error)

  /** `validate_transition` raises nothing. */
  predicate TransitionAllowed(current: Plans.BacklogStatus, target: Plans.BacklogStatus) {
    if current == target && Plans.Open(current) then true
    else
      match current
      case Active => target == Plans.Deferred || target == Plans.Resolved || target == Plans.Cancelled
      case Deferred => target == Plans.Active || target == Plans.Resolved || target == Plans.Cancelled
      case Resolved => false
      case Cancelled => false
  }

  // ----- one entry -----

  /** `_validate`, for an entry and a task of one user. */
  function Checked(e: Entry, duration: int): Result<Entry, Failure> {
    if Plans.EntryValid(e, duration) then Ok(e) else Err(InvalidValues)
  }

  function NoteOr(note: Option<string>, old_: Option<string>): Option<string> {
    if note.Some? then note else old_
  }

  datatype Operation =
    | Defer(until: Option<int>, review: Option<int>, note: Option<string>)
    | Reactivate
    | UpdateRemaining(minutes: int)
    | Resolve(at: int, note: Option<string>)
    | Cancel(note: Option<string>)
    | RecordAttempt

  function DeferEntry(e: Entry, duration: int, until: Option<int>, review: Option<int>, note: Option<string>)
    : Result<Entry, Failure>
  {
    if e.status == Plans.Deferred then
      if e.deferredUntil != until || e.nextReviewAt != review then Err(DatesNeedUpdate)
      else if note.None? || e.note == note then Ok(e)
      else Checked(e.(note := note), duration)
    else if !TransitionAllowed(e.status, Plans.Deferred) then Err(IllegalTransition)
    else
      Checked(e.(status := Plans.Deferred,
                 deferredUntil := until,
                 nextReviewAt := review,
                 note := NoteOr(note, e.note)),
              duration)
  }

  function ReactivateEntry(e: Entry, duration: int): Result<Entry, Failure> {
    if e.status != Plans.Deferred then Err(IllegalTransition)
    else Checked(e.(status := Plans.Active, deferredUntil := None), duration)
  }

  function UpdateRemainingOf(e: Entry, duration: int, minutes: int): Result<Entry, Failure> {
    if e.remaining == minutes then Ok(e) else Checked(e.(remaining := minutes), duration)
  }

  function ResolveEntry(e: Entry, duration: int, at: int, note: Option<string>): Result<Entry, Failure> {
    if e.status == Plans.Resolved then Ok(e)
    else if !TransitionAllowed(e.status, Plans.Resolved) then Err(IllegalTransition)
    else
      Checked(e.(status := Plans.Resolved,
                 remaining := 0,
                 resolvedAt := Some(at),
                 note := NoteOr(note, e.note)),
              duration)
  }

  function CancelEntry(e: Entry, duration: int, note: Option<string>): Result<Entry, Failure> {
    if e.status == Plans.Cancelled then Ok(e)
    else if !TransitionAllowed(e.status, Plans.Cancelled) then Err(IllegalTransition)
    else
      Checked(e.(status := Plans.Cancelled, remaining := 0, resolvedAt := None, note := NoteOr(note, e.note)), duration)
  }

  /** The part of a preview that is stored: one attempt more. */
  function AttemptedEntry(e: Entry, duration: int): Result<Entry, Failure> {
    if !Plans.Open(e.status) then Err(NotAllowed) else Checked(e.(attempts := e.attempts + 1), duration)
  }

  function Changed(e: Entry, duration: int, op: Operation): Result<Entry, Failure> {
    match op
    case Defer(until, review, note) => DeferEntry(e, duration, until, review, note)
    case Reactivate => ReactivateEntry(e, duration)
    case UpdateRemaining(minutes) => UpdateRemainingOf(e, duration, minutes)
    case Resolve(at, note) => ResolveEntry(e, duration, at, note)
    case Cancel(note) => CancelEntry(e, duration, note)
    case RecordAttempt => AttemptedEntry(e, duration)
  }

  // ----- the entries of the store -----

  /** `_locked_entry_and_task` finds the user's entry and its task. */
  function LookupError(st: Plans.Store, tasks: Plans.Tasks, id: string, user: string): Option<Failure> {
    if id !in st.entries || st.entries[id].user != user then Some(EntryNotFound)
    else if st.entries[id].taskId !in tasks then Some(EntryNotFound)
    else if tasks[st.entries[id].taskId].user != user then Some(WrongOwner)
    else None
  }

  function Change(st: Plans.Store, tasks: Plans.Tasks, id: string, user: string, op: Operation)
    : Result<Plans.Store, Failure>
  {
    var error := LookupError(st, tasks, id, user);
    if error.Some? then Err(error.value)
    else
      var e := st.entries[id];
      var changed := Changed(e, tasks[e.taskId].duration, op);
      if changed.Err? then Err(changed.error) else Ok(st.(entries := st.entries[id := changed.value]))
  }

  /** `get_open_entry_for_task` finds this entry. */
  predicate OpenFor(e: Entry, taskId: string) {
    e.taskId == taskId && Plans.Open(e.status)
  }

  /** The same request again: what an existing open entry is compared by. */
  predicate Equivalent(a: Entry, b: Entry) {
    && a.user == b.user && a.reason == b.reason && a.origin == b.origin && a.remaining == b.remaining
    && a.status == b.status && a.nextReviewAt == b.nextReviewAt && a.deferredUntil == b.deferredUntil
    && a.note == b.note
  }

  /** `create_backlog_entry`; a new entry has no attempts and no resolution date. */
  function CreateEntry(st: Plans.Store, tasks: Plans.Tasks, id: string, e: Entry): Result<Plans.Store, Failure>
  {
    if e.taskId !in tasks then Err(EntryNotFound)
    else if tasks[e.taskId].user != e.user then Err(WrongOwner)
    else if exists x | x in st.entries :: OpenFor(st.entries[x], e.taskId) then
      if exists x | x in st.entries :: OpenFor(st.entries[x], e.taskId) && Equivalent(st.entries[x], e) then Ok(st)
      else Err(AlreadyOpen)
    else
      var entry := e.(attempts := 0, resolvedAt := None);
      if !Plans.EntryValid(entry, tasks[e.taskId].duration) then Err(InvalidValues)
      else if id in st.entries then Err(IdTaken)
      else Ok(st.(entries := st.entries[id := entry]))
  }

  // ----- a plan from a preview -----

  /** What comes back with a selected preview. */
  datatype Selection = Selection(
    entryId: string,
    user: string,
    attempts: int,
    previewConnection: string,
    contextConnection: Option<string>,
    blockTasks: seq<string>,
    preview: Preview.PreviewResponse,
    context: Preview.Context)

  /** What the creation adds: the key of the request and fresh ids. */
  datatype NewIds = NewIds(group: string, key: string, sessionIds: nat -> string, calendarId: string)

  function PlanRequest(sel: Selection, taskId: string, sessions: seq<Preview.Normalized>, ids: NewIds): Plans.Request {
    Plans.Request(
      sel.user, None, ids.group, Some(taskId), Some(sel.entryId), ids.key,
      seq(|sessions|, i requires 0 <= i < |sessions| => ids.sessionIds(i)),
      Preview.MinutesOf(sessions), sel.previewConnection, ids.calendarId)
  }

  /** The checks of `create_backlog_schedule_plan` before the plan is created. */
  function SelectionError(st: Plans.Store, tasks: Plans.Tasks, taskClosed: bool, sel: Selection): Option<Failure> {
    var error := LookupError(st, tasks, sel.entryId, sel.user);
    if error.Some? then error
    else
      var e := st.entries[sel.entryId];
      if !Plans.Open(e.status) then Some(NotAllowed)
      else if taskClosed then Some(NotAllowed)
      else if e.attempts != sel.attempts then Some(StalePreview)
      else if sel.contextConnection != Some(sel.previewConnection) then Some(WrongConnection)
      else if Plans.RemainingWork(tasks[e.taskId].duration, st.plans, e.taskId) == 0 then Some(NothingRemaining)
      else if exists t | t in sel.blockTasks :: t != e.taskId then Some(WrongTask)
      else None
  }

  /** `create_backlog_schedule_plan`: the new store and the index of the plan. */
  function CreatePlan(st: Plans.Store, tasks: Plans.Tasks, taskClosed: bool, sel: Selection, ids: NewIds)
    : Result<(Plans.Store, nat), Failure>
  {
    var error := SelectionError(st, tasks, taskClosed, sel);
    if error.Some? then Err(error.value)
    else
      var taskId := st.entries[sel.entryId].taskId;
      var remaining := Plans.RemainingWork(tasks[taskId].duration, st.plans, taskId);
      var sessions := Preview.Validated(Some(remaining), sel.preview, sel.context);
      if sessions.Err? then Err(PreviewRefused(sessions.error))
      else
        var created := Plans.Create(st, tasks, PlanRequest(sel, taskId, sessions.value, ids));
        if created.Err? then Err(PlanRefused(created.error)) else Ok(created.value)
  }

  // ----- commands -----

  /** A commit of either service. */
  datatype Command =
    | PlanCommand(step: Plans.Step)
    | EntryCommand(id: string, user: string, op: Operation)
    | EntryCreation(id: string, entry: Entry)
    | PlanCreation(taskClosed: bool, selection: Selection, ids: NewIds)

  function After(st: Plans.Store, tasks: Plans.Tasks, command: Command): Plans.Store {
    match command
    case PlanCommand(step) => Plans.Next(st, tasks, step)
    case EntryCommand(id, user, op) => var r := Change(st, tasks, id, user, op); if r.Ok? then r.value else st
    case EntryCreation(id, entry) => var r := CreateEntry(st, tasks, id, entry); if r.Ok? then r.value else st
    case PlanCreation(closed, sel, ids) =>
      var r := CreatePlan(st, tasks, closed, sel, ids);
      if r.Ok? then r.value.0 else st
  }

  function RunCommands(st: Plans.Store, tasks: Plans.Tasks, commands: seq<Command>): Plans.Store {
    if commands == [] then st
    else After(RunCommands(st, tasks, commands[..|commands| - 1]), tasks, commands[|commands| - 1])
  }
}
