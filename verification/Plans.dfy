/**
  app/schedule_plans/service.py, apply.py and repository.py with app/backlog/domain.py, as
  functions on the store of schedule plans: versioned creation, confirmation, revalidation
  outcomes, obsoletion, the commits of an apply, and the backlog minutes that go with them.
 */
module Plans {
  import opened Prelude
  import opened Sorting

  // ----- records -----

  datatype PlanStatus =
    Proposed | Confirmed | Obsolete | RevalidationRequired | Applying | Applied | PartiallyApplied | Failed

  datatype SessionStatus =
    SessionProposed | SessionConfirmed | SessionApplying | SessionApplied | SessionFailed | SessionObsolete

  datatype Target = Target(sessionId: string, connection: string, calendarId: string)

  datatype EventMapping = EventMapping(connection: string, calendarId: string, eventId: string)

  datatype PlanSession = PlanSession(
    id: string,
    minutes: int,
    status: SessionStatus,
    mapping: Option<EventMapping>)

  datatype Plan = Plan(
    user: string,
    group: string,
    version: int,
    status: PlanStatus,
    taskId: Option<string>,
    backlogId: Option<string>,
    key: string,
    targets: seq<Target>,
    sessions: seq<PlanSession>)

  datatype BacklogStatus = Active | Deferred | Resolved | Cancelled

  datatype BacklogOrigin = ByUser | ByScheduler | BySystem | ByCalendarSync

  datatype BacklogReason =
    | NoDeadline
    | NoAvailableSlot
    | InsufficientCapacity
    | PlanningHorizonExceeded
    | AwaitingUserConfirmation
    | ManualDefer
    | PartiallyScheduled
    | OtherReason

  datatype Entry = Entry(
    user: string,
    taskId: string,
    status: BacklogStatus,
    origin: BacklogOrigin,
    reason: BacklogReason,
    remaining: int,
    note: Option<string>,
    nextReviewAt: Option<int>,
    deferredUntil: Option<int>,
    resolvedAt: Option<int>,
    attempts: int)

  /** An event the provider holds; one calendar keeps one event per id. */
  datatype Event = Event(connection: string, calendarId: string, eventId: string)

  /** Plans in order of creation, backlog entries by id, and the provider's events for the sessions. */
  datatype Store = Store(plans: seq<Plan>, entries: map<string, Entry>, events: set<Event>)

  /** Task durations in minutes, with the task's owner. */
  datatype TaskInfo = TaskInfo(user: string, duration: int)

  type Tasks = map<string, TaskInfo>

  datatype Error =
    | PlanNotFound
    | InvalidTransition
    | InvalidPreview
    | BacklogInvalid
    | TaskInvalid
    | KeyOfAnotherUser
    | GroupOfAnotherUser
    | ExceedsRemaining
    | ClosingValidation
    | TargetUnavailable
    | NotMovable

  // ----- the transition table -----

  predicate Allowed(from: PlanStatus, to: PlanStatus) {
    match from
    case Proposed => to == Confirmed || to == Obsolete
    case Confirmed => to == Obsolete || to == RevalidationRequired || to == Applying
    case RevalidationRequired => to == Confirmed || to == Obsolete
    case Applying => to == Applied || to == PartiallyApplied || to == Failed
    case PartiallyApplied => to == Applying || to == Failed
    case Applied => false
    case Failed => false
    case Obsolete => false
  }

  /** `transition_schedule_plan`: staying is always allowed. */
  function Transition(from: PlanStatus, to: PlanStatus): Result<PlanStatus, Error> {
    if from == to then Ok(from) else if Allowed(from, to) then Ok(to) else Err(InvalidTransition)
  }

  predicate Terminal(status: PlanStatus) {
    status == Applied || status == Failed || status == Obsolete
  }

  // ----- reserved minutes -----

  /** RESERVING_PLAN_STATUSES. */
  predicate Reserves(status: PlanStatus) {
    status == Confirmed || status == RevalidationRequired || status == Applying || status == Applied
    || status == PartiallyApplied
  }

  function CountedMinutes(s: PlanSession): int {
    if s.status == SessionFailed || s.status == SessionObsolete then 0 else s.minutes
  }

  function AllMinutes(s: PlanSession): int {
    s.minutes
  }

  function PlanReserved(p: Plan): int {
    if Reserves(p.status) then SumBy(p.sessions, CountedMinutes) else 0
  }

  function ReservedFor(taskId: string): Plan -> int {
    (p: Plan) => if p.taskId == Some(taskId) then PlanReserved(p) else 0
  }

  /** The minutes of a task's sessions that hold time. */
  function Reserved(plans: seq<Plan>, taskId: string): int {
    SumBy(plans, ReservedFor(taskId))
  }

  /** `calculate_remaining_unscheduled_duration`, for a positive duration. */
  function RemainingWork(duration: int, plans: seq<Plan>, taskId: string): int {
    Max(duration - Reserved(plans, taskId), 0)
  }

  // ----- backlog entries -----

  predicate Open(status: BacklogStatus) {
    status == Active || status == Deferred
  }

  predicate ReasonFitsOrigin(reason: BacklogReason, origin: BacklogOrigin) {
    && (reason == ManualDefer ==> origin == ByUser)
    && (reason in {NoAvailableSlot, InsufficientCapacity, PlanningHorizonExceeded, PartiallyScheduled} ==>
          origin == ByScheduler)
  }

  /** What Python's `str.strip` takes away. */
  predicate WhiteSpace(c: char) {
    var code := c as int;
    || 9 <= code <= 13 || 28 <= code <= 32 || code == 0x85 || code == 0xA0 || code == 0x1680
    || 0x2000 <= code <= 0x200A || code == 0x2028 || code == 0x2029 || code == 0x202F || code == 0x205F
    || code == 0x3000
  }

  /** A note that is there and not blank. */
  predicate Meaningful(note: Option<string>) {
    note.Some? && exists c | c in note.value :: !WhiteSpace(c)
  }

  /** `validate_backlog_values` raises nothing. */
  predicate EntryValid(e: Entry, duration: int) {
    && 0 <= e.remaining <= duration
    && (Open(e.status) ==> e.remaining > 0)
    && (!Open(e.status) ==> e.remaining == 0)
    && (e.status == Deferred ==> e.deferredUntil.Some? || e.nextReviewAt.Some?)
    && (e.status == Resolved ==> e.resolvedAt.Some?)
    && (e.status != Resolved ==> e.resolvedAt.None?)
    && e.attempts >= 0
    && ReasonFitsOrigin(e.reason, e.origin)
    && (e.reason == OtherReason ==> Meaningful(e.note))
  }

  /** `_update_backlog_after_confirmation`, before its closing validation. */
  function UpdatedEntry(e: Entry, remaining: int, now: int): Entry {
    if remaining == 0 then e.(remaining := 0, status := Resolved, resolvedAt := Some(now))
    else e.(remaining := remaining, reason := PartiallyScheduled, origin := ByScheduler)
  }

  // ----- creating -----

  /** A validated preview to persist: session ids and minutes in order, write targets, and the keys. */
  datatype Request = Request(
    user: string,
    group: Option<string>,
    newGroup: string,
    taskId: Option<string>,
    backlogId: Option<string>,
    key: string,
    sessionIds: seq<string>,
    minutes: seq<int>,
    connection: string,
    calendarId: string)
  {
    /** `_validate_preview` has accepted the blocks; ids and blocks go together. */
    predicate Valid() {
      |sessionIds| == |minutes| && minutes != [] && forall m | m in minutes :: m > 0
    }

    function Group(): string {
      if group.Some? then group.value else newGroup
    }
  }

  /** `latest_plan_in_group`: the highest version. */
  function LatestInGroup(plans: seq<Plan>, group: string): (r: Option<nat>)
    ensures r.Some? ==> r.value < |plans| && plans[r.value].group == group
  {
    if plans == [] then None
    else
      var n := |plans| - 1;
      var earlier := LatestInGroup(plans[..n], group);
      if plans[n].group != group then earlier
      else if earlier.None? || plans[n].version > plans[earlier.value].version then Some(n)
      else earlier
  }

  function WithKey(plans: seq<Plan>, key: string): (r: Option<nat>)
    ensures r.Some? ==> r.value < |plans| && plans[r.value].key == key
  {
    if plans == [] then None
    else
      var earlier := WithKey(plans[..|plans| - 1], key);
      if earlier.Some? then earlier else if plans[|plans| - 1].key == key then Some(|plans| - 1) else None
  }

  function SetStatus(sessions: seq<PlanSession>, status: SessionStatus): seq<PlanSession> {
    seq(|sessions|, i requires 0 <= i < |sessions| => sessions[i].(status := status))
  }

  function Obsoleted(p: Plan): Plan {
    p.(status := Obsolete, sessions := SetStatus(p.sessions, SessionObsolete))
  }

  predicate Replaceable(status: PlanStatus) {
    status == Proposed || status == Confirmed || status == RevalidationRequired
  }

  function NewSessions(req: Request): seq<PlanSession>
    requires req.Valid()
  {
    seq(|req.minutes|, i requires 0 <= i < |req.minutes| =>
      PlanSession(req.sessionIds[i], req.minutes[i], SessionProposed, None))
  }

  function NewPlan(req: Request, version: int): Plan
    requires req.Valid()
  {
    Plan(req.user, req.Group(), version, Proposed, req.taskId, req.backlogId, req.key,
         seq(|req.sessionIds|, i requires 0 <= i < |req.sessionIds| =>
           Target(req.sessionIds[i], req.connection, req.calendarId)),
         NewSessions(req))
  }

  /** The checks on the task and the backlog entry of a request. */
  function RequestError(st: Store, tasks: Tasks, req: Request): Option<Error> {
    if req.taskId.Some? && (req.taskId.value !in tasks || tasks[req.taskId.value].user != req.user) then
      Some(TaskInvalid)
    else if req.backlogId.Some? then
      if req.backlogId.value !in st.entries || st.entries[req.backlogId.value].user != req.user then
        Some(BacklogInvalid)
      else if req.taskId != Some(st.entries[req.backlogId.value].taskId) then Some(BacklogInvalid)
      else None
    else None
  }

  /** `create_schedule_plan_from_preview`: the new store and the index of the plan returned. */
  function Create(st: Store, tasks: Tasks, req: Request): Result<(Store, nat), Error> {
    var error := RequestError(st, tasks, req);
    if error.Some? then Err(error.value)
    else if !req.Valid() then Err(InvalidPreview)
    else
      var existing := WithKey(st.plans, req.key);
      if existing.Some? then
        if st.plans[existing.value].user != req.user then Err(KeyOfAnotherUser) else Ok((st, existing.value))
      else
        var previous := if req.group.Some? then LatestInGroup(st.plans, req.group.value) else None;
        if previous.None? then Ok((st.(plans := st.plans + [NewPlan(req, 1)]), |st.plans|))
        else
          var p := st.plans[previous.value];
          if p.user != req.user then Err(GroupOfAnotherUser)
          else if p.status == Applied || p.status == Applying || p.status == PartiallyApplied then
            Err(InvalidTransition)
          else
            var plans := if Replaceable(p.status) then st.plans[previous.value := Obsoleted(p)] else st.plans;
            Ok((st.(plans := plans + [NewPlan(req, p.version + 1)]), |st.plans|))
  }

  // ----- confirming -----

  function ConfirmedPlan(p: Plan): Plan {
    p.(status := Confirmed, sessions := SetStatus(p.sessions, SessionConfirmed))
  }

  /** The checks before a linked plan is confirmed. */
  function BacklogError(st: Store, tasks: Tasks, p: Plan): Option<Error>
    requires p.backlogId.Some?
  {
    if p.backlogId.value !in st.entries || st.entries[p.backlogId.value].user != p.user then Some(BacklogInvalid)
    else
      var entry := st.entries[p.backlogId.value];
      if !Open(entry.status) then Some(BacklogInvalid)
      else if p.taskId != Some(entry.taskId) then Some(BacklogInvalid)
      else if entry.taskId !in tasks || tasks[entry.taskId].user != p.user then Some(TaskInvalid)
      else if tasks[entry.taskId].duration <= 0 then Some(TaskInvalid)
      else if SumBy(p.sessions, AllMinutes) > RemainingWork(tasks[entry.taskId].duration, st.plans, entry.taskId) then
        Some(ExceedsRemaining)
      else None
  }

  /** `confirm_schedule_plan`. */
  function Confirm(st: Store, tasks: Tasks, i: nat, now: int): Result<Store, Error> {
    if i >= |st.plans| then Err(PlanNotFound)
    else
      var p := st.plans[i];
      if p.status == Confirmed then Ok(st)
      else if p.status != Proposed then Err(InvalidTransition)
      else
        var plans := st.plans[i := ConfirmedPlan(p)];
        if p.backlogId.None? then Ok(st.(plans := plans))
        else
          var error := BacklogError(st, tasks, p);
          if error.Some? then Err(error.value)
          else
            var id := p.backlogId.value;
            var entry := st.entries[id];
            var duration := tasks[entry.taskId].duration;
            var updated := UpdatedEntry(entry, RemainingWork(duration, plans, entry.taskId), now);
            if !EntryValid(updated, duration) then Err(ClosingValidation)
            else Ok(st.(plans := plans, entries := st.entries[id := updated]))
  }

  // ----- revalidating and obsoleting -----

  /** How a revalidation ended. */
  datatype Revalidation = ProviderFailure | PartialFailure | Conflict | Valid

  /** The status part of `revalidate_schedule_plan`. */
  function RevalidatedStatus(status: PlanStatus, outcome: Revalidation): Result<PlanStatus, Error> {
    if status != Confirmed && status != RevalidationRequired then Err(InvalidTransition)
    else
      match outcome
      case ProviderFailure => Ok(status)
      case PartialFailure => Ok(RevalidationRequired)
      case Conflict => Ok(RevalidationRequired)
      case Valid => Ok(Confirmed)
  }

  function Revalidate(st: Store, i: nat, outcome: Revalidation): Result<Store, Error> {
    if i >= |st.plans| then Err(PlanNotFound)
    else
      var status := RevalidatedStatus(st.plans[i].status, outcome);
      if status.Err? then Err(status.error)
      else Ok(st.(plans := st.plans[i := st.plans[i].(status := status.value)]))
  }

  /** `obsolete_schedule_plan`. */
  function MarkObsolete(st: Store, i: nat): Result<Store, Error> {
    if i >= |st.plans| then Err(PlanNotFound)
    else
      var p := st.plans[i];
      if p.status == Obsolete then Ok(st)
      else if !Replaceable(p.status) then Err(InvalidTransition)
      else Ok(st.(plans := st.plans[i := Obsoleted(p)]))
  }

  // ----- applying -----

  /** The stored targets of a session. */
  function TargetsOf(targets: seq<Target>, sessionId: string): seq<Target> {
    if targets == [] then []
    else
      TargetsOf(targets[..|targets| - 1], sessionId)
      + (if targets[|targets| - 1].sessionId == sessionId then [targets[|targets| - 1]] else [])
  }

  /** A session's one target, on a connection that is owned, active and the one recorded. */
  predicate HasTarget(p: Plan, s: PlanSession, usable: set<string>) {
    var targets := TargetsOf(p.targets, s.id);
    |targets| == 1 && targets[0].connection in usable
  }

  /** `_targets_for_unapplied_sessions` raises nothing. */
  predicate TargetsResolve(p: Plan, usable: set<string>) {
    forall s | s in p.sessions && s.mapping.None? :: HasTarget(p, s, usable)
  }

  function Begun(s: PlanSession): PlanSession {
    s.(status := if s.mapping.Some? then SessionApplied else SessionApplying)
  }

  function BegunAll(sessions: seq<PlanSession>): seq<PlanSession> {
    seq(|sessions|, i requires 0 <= i < |sessions| => Begun(sessions[i]))
  }

  /** The first commit of `apply_schedule_plan`, for a plan not applied yet. */
  function ApplyBegin(st: Store, i: nat, usable: set<string>): Result<Store, Error> {
    if i >= |st.plans| then Err(PlanNotFound)
    else
      var p := st.plans[i];
      if p.status != Confirmed && p.status != PartiallyApplied then Err(InvalidTransition)
      else if !TargetsResolve(p, usable) then Err(TargetUnavailable)
      else Ok(st.(plans := st.plans[i := p.(status := Applying, sessions := BegunAll(p.sessions))]))
  }

  /**
    How the attempt for one session ended: the mapping was saved; the provider call failed,
    with or without the event in the calendar; the mapping could not be saved; or it had been
    saved by someone else.
   */
  datatype Attempt = Saved | CallFailed(created: bool) | SaveFailed | SavedElsewhere

  function TargetEvent(p: Plan, s: PlanSession): Event
    requires TargetsOf(p.targets, s.id) != []
  {
    var t := TargetsOf(p.targets, s.id)[0];
    Event(t.connection, t.calendarId, s.id)
  }

  function MappingFor(e: Event): EventMapping {
    EventMapping(e.connection, e.calendarId, e.eventId)
  }

  /** The session after an attempt to create its event. */
  function Attempted(s: PlanSession, e: Event, attempt: Attempt): PlanSession {
    match attempt
    case Saved => s.(mapping := Some(MappingFor(e)), status := SessionApplied)
    case CallFailed(_) => s.(status := SessionFailed)
    case SaveFailed => s.(status := SessionFailed)
    case SavedElsewhere => s.(mapping := Some(MappingFor(e)))
  }

  predicate CreatesEvent(attempt: Attempt) {
    attempt != CallFailed(false)
  }

  /** One turn of the loop, for an unmapped session of a plan being applied; each gets one turn in an apply. */
  function ApplySession(st: Store, i: nat, k: nat, attempt: Attempt): Result<Store, Error> {
    if i >= |st.plans| || k >= |st.plans[i].sessions| then Err(PlanNotFound)
    else
      var p := st.plans[i];
      var s := p.sessions[k];
      if p.status != Applying then Err(InvalidTransition)
      else if s.mapping.Some? then Ok(st)
      else if s.status != SessionApplying then Err(InvalidTransition)
      else if TargetsOf(p.targets, s.id) == [] then Err(TargetUnavailable)
      else
        var e := TargetEvent(p, s);
        Ok(st.(plans := st.plans[i := p.(sessions := p.sessions[k := Attempted(s, e, attempt)])],
               events := if CreatesEvent(attempt) then st.events + {e} else st.events))
  }

  function Mapped(s: PlanSession): int {
    Indicator(s.mapping.Some?)
  }

  /** The final status by the number of mapped sessions. */
  function ResultingStatus(p: Plan): PlanStatus {
    var mapped := SumBy(p.sessions, Mapped);
    if mapped == |p.sessions| then Applied else if mapped != 0 then PartiallyApplied else Failed
  }

  /** The last commit of `apply_schedule_plan`. */
  function ApplyFinish(st: Store, i: nat): Result<Store, Error> {
    if i >= |st.plans| then Err(PlanNotFound)
    else
      var status := Transition(st.plans[i].status, ResultingStatus(st.plans[i]));
      if st.plans[i].status != Applying then Err(InvalidTransition)
      else if status.Err? then Err(status.error)
      else Ok(st.(plans := st.plans[i := st.plans[i].(status := status.value)]))
  }

  // ----- an external move -----

  /**
    What processing an external move does to a plan (app/calendar_sync/processing.py): it
    rewrites the minutes of a session that has a mapping, whatever the plan's status, to the
    positive whole minutes of the event.
   */
  function MoveSession(st: Store, i: nat, k: nat, minutes: int): Result<Store, Error> {
    if i >= |st.plans| || k >= |st.plans[i].sessions| then Err(PlanNotFound)
    else
      var p := st.plans[i];
      if p.sessions[k].mapping.None? || minutes <= 0 then Err(NotMovable)
      else Ok(st.(plans := st.plans[i := p.(sessions := p.sessions[k := p.sessions[k].(minutes := minutes)])]))
  }

  // ----- runs -----

  datatype Step =
    | CreateStep(req: Request)
    | ConfirmStep(plan: nat, now: int)
    | RevalidateStep(plan: nat, outcome: Revalidation)
    | ObsoleteStep(plan: nat)
    | BeginStep(plan: nat, usable: set<string>)
    | AttemptStep(plan: nat, session: nat, attempt: Attempt)
    | FinishStep(plan: nat)
    | MoveStep(plan: nat, session: nat, minutes: int)

  function Kept(st: Store, r: Result<Store, Error>): Store {
    if r.Ok? then r.value else st
  }

  /** One commit, or an error that changes nothing. */
  function Next(st: Store, tasks: Tasks, step: Step): Store {
    match step
    case CreateStep(req) => var r := Create(st, tasks, req); if r.Ok? then r.value.0 else st
    case ConfirmStep(i, now) => Kept(st, Confirm(st, tasks, i, now))
    case RevalidateStep(i, outcome) => Kept(st, Revalidate(st, i, outcome))
    case ObsoleteStep(i) => Kept(st, MarkObsolete(st, i))
    case BeginStep(i, usable) => Kept(st, ApplyBegin(st, i, usable))
    case AttemptStep(i, k, attempt) => Kept(st, ApplySession(st, i, k, attempt))
    case FinishStep(i) => Kept(st, ApplyFinish(st, i))
    case MoveStep(i, k, minutes) => Kept(st, MoveSession(st, i, k, minutes))
  }

  function Run(st: Store, tasks: Tasks, steps: seq<Step>): Store {
    if steps == [] then st else Next(Run(st, tasks, steps[..|steps| - 1]), tasks, steps[|steps| - 1])
  }
}
