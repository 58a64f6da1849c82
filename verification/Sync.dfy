/**
  app/calendar_sync/pull.py and processing.py, as functions on the synchronization state of
  one plan: `Pull` records what the provider shows, `Process` consumes one recorded change.
 */
module Sync {
  import opened Prelude
  import opened Intervals
  import opened Policy

  // ----- snapshots -----

  /** A zoned datetime: the instant and the offset it is written with. */
  datatype Stamp = Stamp(utc: int, offset: int)

  datatype SnapshotRaw = Snapshot(
    eventId: string,
    calendarId: string,
    exists_: bool,
    cancelled: bool,
    start: Option<Stamp>,
    end: Option<Stamp>,
    timezone: Option<string>,
    etag: Option<string>,
    updatedAt: Option<Stamp>,
    providerStatus: Option<string>)
  {
    predicate Present() {
      exists_ && !cancelled
    }

    /** The model's validator: a present event has a positive interval. */
    predicate Valid() {
      Present() ==> start.Some? && end.Some? && start.value.utc < end.value.utc
    }

    /** `_state`: the fields that make two snapshots differ, as text. */
    function Visible(): SnapshotState {
      SnapshotState(eventId, calendarId, exists_, cancelled, start, end, timezone)
    }
  }

  type Snapshot = s: SnapshotRaw | s.Valid()
    witness Snapshot("", "", false, false, None, None, None, None, None, None)

  datatype SnapshotState = SnapshotState(
    eventId: string,
    calendarId: string,
    exists_: bool,
    cancelled: bool,
    start: Option<Stamp>,
    end: Option<Stamp>,
    timezone: Option<string>)

  function Instant(stamp: Option<Stamp>): Option<int> {
    if stamp.Some? then Some(stamp.value.utc) else None
  }

  function AsEventState(s: Snapshot): EventState {
    EventState(s.exists_, s.cancelled, Instant(s.start), Instant(s.end), s.calendarId)
  }

  // ----- records -----

  datatype SyncStatus = SyncPending | Synced | SyncFailed | ExternallyDeleted

  datatype Mapping = Mapping(
    calendarId: string,
    eventId: string,
    status: SyncStatus,
    snapshot: Option<Snapshot>,
    etag: Option<string>,
    updatedAt: Option<Stamp>)

  datatype Kind = Created | Updated | Moved | Deleted

  datatype ChangeStatus = Pending | Processing | Processed | Failed

  datatype Action =
    NoActionTaken | SessionUpdated | DeadlineExtended | MarkedMissing | ConflictRecorded | UnsupportedChange

  datatype Change = Change(
    mapping: string,
    kind: Kind,
    old_: Snapshot,
    new_: Snapshot,
    status: ChangeStatus,
    actions: seq<Action>)

  datatype Session = Session(order: int, span: TimeInterval, minutes: int)

  datatype DeadlineEntry = DeadlineEntry(change: nat, previous: Option<int>, new_: int)

  datatype Finding = Finding(change: nat, code: ConflictCode, ids: seq<string>)

  /** What stays fixed: the plan's sessions in query order, its window and its time zone. */
  datatype PlanInfo = PlanInfo(order: seq<string>, window: TimeInterval, timezone: string)

  /** Sessions by id; mappings by the id of their session; changes in the order recorded. */
  datatype Store = Store(
    sessions: map<string, Session>,
    mappings: map<string, Mapping>,
    changes: seq<Change>,
    deadline: Option<int>,
    history: seq<DeadlineEntry>,
    findings: seq<Finding>)

  // ----- pull -----

  /** What the provider answered: an event, that there is none, or an error. */
  datatype Fetch = Fetched(current: Snapshot) | EventNotFound | ProviderError

  /** `_baseline`: the last synchronized snapshot, or one made up from the session. */
  function Baseline(mapping: Mapping, session: Session, timezone: string): Snapshot {
    if mapping.snapshot.Some? then mapping.snapshot.value
    else
      Snapshot(
        mapping.eventId, mapping.calendarId, mapping.status != ExternallyDeleted, false,
        Some(Stamp(session.span.start, 0)), Some(Stamp(session.span.end, 0)), Some(timezone),
        mapping.etag, mapping.updatedAt, Some("confirmed"))
  }

  function ChangeKind(previous: Snapshot, current: Snapshot): Option<Kind> {
    if previous.Visible() == current.Visible() then None
    else if previous.exists_ && (!current.exists_ || current.cancelled) then Some(Deleted)
    else if (!previous.exists_ || previous.cancelled) && current.exists_ then Some(Created)
    else if Instant(previous.start) != Instant(current.start) || Instant(previous.end) != Instant(current.end) then
      Some(Moved)
    else Some(Updated)
  }

  /** The transition hash: two changes of a mapping collide when both would be the same transition. */
  predicate SameTransition(c: Change, mapping: string, previous: Snapshot, current: Snapshot) {
    c.mapping == mapping && c.old_.Visible() == previous.Visible() && c.new_ == current
  }

  predicate AlreadyRecorded(changes: seq<Change>, mapping: string, previous: Snapshot, current: Snapshot) {
    exists c | c in changes :: SameTransition(c, mapping, previous, current)
  }

  function NotFoundSnapshot(mapping: Mapping): Snapshot {
    Snapshot(mapping.eventId, mapping.calendarId, false, false, None, None, None, None, None, Some("not_found"))
  }

  predicate OtherIdentity(mapping: Mapping, current: Snapshot) {
    current.calendarId != mapping.calendarId || current.eventId != mapping.eventId
  }

  function SyncedWith(mapping: Mapping, current: Snapshot): Mapping {
    mapping.(
      snapshot := Some(current),
      etag := current.etag,
      updatedAt := current.updatedAt,
      status := if !current.exists_ || current.cancelled then ExternallyDeleted else Synced)
  }

  /** Compare, append a change if something differs, and advance the snapshot, in one commit. */
  function Record(s: Store, m: string, current: Snapshot, info: PlanInfo): Store
    requires m in s.mappings && m in s.sessions
  {
    var mapping := s.mappings[m];
    var previous := Baseline(mapping, s.sessions[m], info.timezone);
    var kind := ChangeKind(previous, current);
    if kind.Some? && AlreadyRecorded(s.changes, m, previous, current) then s
    else
      s.(mappings := s.mappings[m := SyncedWith(mapping, current)],
         changes := if kind.Some? then s.changes + [Change(m, kind.value, previous, current, Pending, [])]
                    else s.changes)
  }

  /** `pull_calendar_event`; an unknown mapping raises and changes nothing. */
  function Pull(s: Store, m: string, fetch: Fetch, info: PlanInfo): Store {
    if m !in s.mappings || m !in s.sessions then s
    else
      var mapping := s.mappings[m];
      match fetch
      case EventNotFound => Record(s, m, NotFoundSnapshot(mapping), info)
      case ProviderError => s.(mappings := s.mappings[m := mapping.(status := SyncFailed)])
      case Fetched(current) =>
        if OtherIdentity(mapping, current) then
          s.(mappings := s.mappings[m := mapping.(status := SyncFailed)])
        else Record(s, m, current, info)
  }

  // ----- process -----

  datatype ProcessError =
    | ChangeNotFound
    | AggregateInvalid
    | BeingProcessed
    | NotProcessable
    | Stale
    | NotWholeMinutes
    | UnsupportedDecision
    | PolicyFailed

  function Observed(mapping: Option<Mapping>): Option<TimeInterval> {
    if mapping.None? || mapping.value.snapshot.None? then None
    else
      var snapshot := mapping.value.snapshot.value;
      if snapshot.Present() then Some(Span(snapshot.start.value.utc, snapshot.end.value.utc)) else None
  }

  function MappingOf(s: Store, id: string): Option<Mapping> {
    if id in s.mappings then Some(s.mappings[id]) else None
  }

  function PolicySessionOf(s: Store, id: string): PolicySession
    requires id in s.sessions
  {
    var mapping := MappingOf(s, id);
    PolicySession(
      id, s.sessions[id].order, s.sessions[id].span,
      mapping.Some?,
      mapping.Some? && mapping.value.status == ExternallyDeleted,
      Observed(mapping))
  }

  /** The plan's sessions in query order, as the policy sees them. */
  function PolicySessions(s: Store, order: seq<string>): seq<PolicySession> {
    if order == [] then []
    else
      var last := order[|order| - 1];
      PolicySessions(s, order[..|order| - 1]) + (if last in s.sessions then [PolicySessionOf(s, last)] else [])
  }

  function AggregateOf(s: Store, m: string, info: PlanInfo): Aggregate {
    Aggregate(m, s.deadline, info.window, PolicySessions(s, info.order))
  }

  /** The ids of the aggregate's sessions. */
  function KnownIds(aggregate: Aggregate): set<string> {
    set s | s in aggregate.sessions :: s.id
  }

  function TypeOf(kind: Kind): ChangeType {
    match kind
    case Created => CreatedType
    case Updated => UpdatedType
    case Moved => MovedType
    case Deleted => DeletedType
  }

  function InputOf(change: Change): ChangeInput {
    ChangeInput(TypeOf(change.kind), Some(AsEventState(change.old_)), Some(AsEventState(change.new_)))
  }

  predicate Terminal(d: Decision) {
    d.NoAction? || d.Unsupported?
  }

  function CheckDecision(d: Decision, m: string, session: Session, known: set<string>): Option<ProcessError> {
    match d
    case UpdateSession(id, previous, new_) =>
      if id != m then Some(AggregateInvalid)
      else if previous != session.span then Some(Stale)
      else if new_.end - new_.start <= 0 || (new_.end - new_.start) % MINUTE != 0 then Some(NotWholeMinutes)
      else None
    case MarkMissing(id, _) => if id != m then Some(AggregateInvalid) else None
    case RecordConflict(_, ids) =>
      if ids == [] || exists id | id in ids :: id !in known then Some(AggregateInvalid) else None
    case _ => None
  }

  function FirstError(decisions: seq<Decision>, m: string, session: Session, known: set<string>): Option<ProcessError> {
    if decisions == [] then None
    else
      var earlier := FirstError(decisions[..|decisions| - 1], m, session, known);
      if earlier.Some? then earlier else CheckDecision(decisions[|decisions| - 1], m, session, known)
  }

  /** `_validate_decisions`. */
  function ValidateDecisions(decisions: seq<Decision>, m: string, session: Session, known: set<string>)
    : Option<ProcessError>
  {
    if decisions == [] then Some(UnsupportedDecision)
    else if (exists d | d in decisions :: Terminal(d)) && |decisions| != 1 then Some(AggregateInvalid)
    else FirstError(decisions, m, session, known)
  }

  /** What the decision loop changes. */
  datatype Effects = Effects(
    session: Session,
    status: SyncStatus,
    deadline: Option<int>,
    history: seq<DeadlineEntry>,
    findings: seq<Finding>,
    actions: seq<Action>)

  function ApplyDecision(e: Effects, d: Decision, change: nat): Effects {
    match d
    case NoAction => e.(actions := e.actions + [NoActionTaken])
    case UpdateSession(_, _, new_) =>
      if new_.start < new_.end then
        e.(session := e.session.(span := new_, minutes := (new_.end - new_.start) / MINUTE),
           actions := e.actions + [SessionUpdated])
      else e
    case ExtendDeadline(new_) =>
      if e.deadline.None? || new_ > e.deadline.value then
        e.(deadline := Some(new_),
           history := e.history + [DeadlineEntry(change, e.deadline, new_)],
           actions := e.actions + [DeadlineExtended])
      else e
    case MarkMissing(_, _) => e.(status := ExternallyDeleted, actions := e.actions + [MarkedMissing])
    case RecordConflict(code, ids) =>
      e.(findings := e.findings + [Finding(change, code, ids)], actions := e.actions + [ConflictRecorded])
    case Unsupported => e.(actions := e.actions + [UnsupportedChange])
  }

  function ApplyAll(e: Effects, decisions: seq<Decision>, change: nat): Effects {
    if decisions == [] then e
    else ApplyDecision(ApplyAll(e, decisions[..|decisions| - 1], change), decisions[|decisions| - 1], change)
  }

  function EffectsOf(s: Store, m: string): Effects
    requires m in s.sessions && m in s.mappings
  {
    Effects(s.sessions[m], s.mappings[m].status, s.deadline, s.history, s.findings, [])
  }

  /** The effects written back, and the change marked processed with its actions. */
  function Commit(s: Store, i: nat, e: Effects): Store
    requires i < |s.changes| && s.changes[i].mapping in s.mappings
  {
    var m := s.changes[i].mapping;
    Store(
      s.sessions[m := e.session],
      s.mappings[m := s.mappings[m].(status := e.status)],
      s.changes[i := s.changes[i].(status := Processed, actions := e.actions)],
      e.deadline, e.history, e.findings)
  }

  /** What processing a change would decide, when the change can be processed at all. */
  function Decide(s: Store, i: nat, info: PlanInfo): Result<seq<Decision>, ProcessError>
    requires i < |s.changes|
  {
    var change := s.changes[i];
    var m := change.mapping;
    if m !in s.mappings || m !in s.sessions then Err(AggregateInvalid)
    else if change.status == Processing then Err(BeingProcessed)
    else if change.status != Pending && change.status != Failed then Err(NotProcessable)
    else
      var aggregate := AggregateOf(s, m, info);
      if m !in KnownIds(aggregate) then Err(AggregateInvalid)
      else
        var decisions := Evaluate(aggregate, InputOf(change));
        if decisions.Err? then Err(PolicyFailed)
        else
          var error := ValidateDecisions(decisions.value, m, s.sessions[m], KnownIds(aggregate));
          if error.Some? then Err(error.value) else Ok(decisions.value)
  }

  /** `process`: an error rolls back, a change already processed is answered from its stored result. */
  function Process(s: Store, i: nat, info: PlanInfo): Result<Store, ProcessError> {
    if i >= |s.changes| then Err(ChangeNotFound)
    else if s.changes[i].status == Processed && s.changes[i].mapping in s.mappings
            && s.changes[i].mapping in s.sessions then Ok(s)
    else
      var decisions := Decide(s, i, info);
      if decisions.Err? then Err(decisions.error)
      else Ok(Commit(s, i, ApplyAll(EffectsOf(s, s.changes[i].mapping), decisions.value, i)))
  }
}
