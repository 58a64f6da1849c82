/**
  app/scheduling/scheduler.py, as functions: the specification the loops of module
  SchedulerLoop compute, and the subject of the scheduler's theorems.
 */
module Scheduler {
  import opened Prelude
  import opened Sorting
  import opened Orders
  import opened Intervals
  import opened Zones

  // ----- values -----

  datatype Priority = Low | Medium | High | Urgent

  datatype TimeOfDay = AnyTime | Morning | Afternoon | Evening

  /** `aware` is false when the earliest start or the deadline carries no time zone. */
  datatype Task = Task(
    id: string,
    duration: int,
    priority: Priority,
    earliest: Option<int>,
    deadline: Option<int>,
    aware: bool,
    preferred: TimeOfDay,
    splittable: bool,
    minSession: int,
    maxPerDay: int)

  /** The scheduler's preferences; `cutoff` is the wall-clock time after which nothing is placed. */
  datatype Preferences = Preferences(
    preferred: TimeOfDay,
    minimumBreak: int,
    cutoff: Option<int>,
    defaultMinSession: int)

  datatype AcceptedBlock = AcceptedBlock(taskId: string, start: int, end: int)

  datatype Block = Block(taskId: string, span: TimeInterval)

  datatype Unscheduled = Unscheduled(taskId: string, remaining: int)

  datatype WarningCode = HardConstraint | OutsideFreeTime | UnknownTask | BlocksOverlap

  datatype Warning = Warning(code: WarningCode, taskIds: seq<string>)

  datatype SchedulerResult = SchedulerResult(
    blocks: seq<Block>,
    unscheduled: seq<Unscheduled>,
    warnings: seq<Warning>)

  datatype Error = NegativeBreak | NonPositiveMinimumSession | InvalidAcceptedBlock

  /** What stays fixed while tasks are placed. */
  datatype Setting = Setting(free: seq<TimeInterval>, prefs: Preferences, zone: Zone) {
    function Break(): int {
      prefs.minimumBreak * MINUTE
    }

    predicate Valid() {
      prefs.minimumBreak >= 0 && prefs.defaultMinSession > 0
    }
  }

  /** The sessions of a task on a local day: the source's Counter, zero when absent. */
  type SessionCounter = map<(string, int), int>

  function Count(counter: SessionCounter, id: string, day: int): int {
    if (id, day) in counter then counter[(id, day)] else 0
  }

  function CountUp(counter: SessionCounter, id: string, day: int): SessionCounter {
    counter[(id, day) := Count(counter, id, day) + 1]
  }

  // ----- tasks -----

  predicate TaskInvalid(task: Task) {
    || !task.aware
    || task.id == ""
    || task.duration <= 0
    || task.minSession <= 0
    || task.maxPerDay <= 0
    || (task.earliest.Some? && task.deadline.Some? && task.earliest.value >= task.deadline.value)
    || (task.splittable && task.minSession > task.duration)
  }

  predicate TaskValid(task: Task) {
    !TaskInvalid(task)
  }

  function PriorityRank(p: Priority): int {
    match p
    case Urgent => 0
    case High => 1
    case Medium => 2
    case Low => 3
  }

  /** `datetime.max`, the deadline a task without one sorts by. */
  const LATEST_INSTANT: int := 253_402_300_799_999_999

  function DeadlineKey(task: Task): int {
    if task.deadline.Some? then task.deadline.value else LATEST_INSTANT
  }

  /** The task order: priority, then deadline, then id. */
  predicate TaskLe(a: Task, b: Task) {
    || PriorityRank(a.priority) < PriorityRank(b.priority)
    || (PriorityRank(a.priority) == PriorityRank(b.priority) &&
        (DeadlineKey(a) < DeadlineKey(b) || (DeadlineKey(a) == DeadlineKey(b) && StringLe(a.id, b.id))))
  }

  function EffectiveMinimum(task: Task, prefs: Preferences): int {
    Max(task.minSession, prefs.defaultMinSession)
  }

  // ----- interval subtraction -----

  /** What one reservation leaves of one source interval. */
  function Cut(source: TimeInterval, r: TimeInterval): seq<TimeInterval> {
    if r.end <= source.start || r.start >= source.end then [source]
    else
      (if source.start < r.start then [Span(source.start, r.start)] else [])
      + (if r.end < source.end then [Span(r.end, source.end)] else [])
  }

  function CutAll(sources: seq<TimeInterval>, r: TimeInterval): seq<TimeInterval> {
    if sources == [] then [] else CutAll(sources[..|sources| - 1], r) + Cut(sources[|sources| - 1], r)
  }

  function SubtractInOrder(sources: seq<TimeInterval>, rs: seq<TimeInterval>): seq<TimeInterval> {
    if rs == [] then sources else CutAll(SubtractInOrder(sources, rs[..|rs| - 1]), rs[|rs| - 1])
  }

  function Subtract(sources: seq<TimeInterval>, rs: seq<TimeInterval>): seq<TimeInterval> {
    SubtractInOrder(sources, Sort(rs, SpanLe))
  }

  // ----- where a task may go -----

  function ApplyCutoff(span: TimeInterval, setting: Setting): Option<TimeInterval> {
    if setting.prefs.cutoff.None? then Some(span)
    else
      var cutoff := AtWall(setting.zone, LocalDay(setting.zone, span.start), setting.prefs.cutoff.value);
      var end := Min(span.end, cutoff);
      if span.start < end then Some(Span(span.start, end)) else None
  }

  /** A free interval clipped to the task's window and the cutoff: no interval or one. */
  function Clip(task: Task, span: TimeInterval, setting: Setting): Option<TimeInterval> {
    var start := if task.earliest.Some? then Max(span.start, task.earliest.value) else span.start;
    var end := if task.deadline.Some? then Min(span.end, task.deadline.value) else span.end;
    if start >= end then None else ApplyCutoff(Span(start, end), setting)
  }

  function Constrained(task: Task, free: seq<TimeInterval>, setting: Setting): seq<TimeInterval> {
    if free == [] then []
    else
      var clipped := Clip(task, free[|free| - 1], setting);
      Constrained(task, free[..|free| - 1], setting) + (if clipped.Some? then [clipped.value] else [])
  }

  /** A block with the break on both sides. */
  function Padded(span: TimeInterval, setting: Setting): TimeInterval
    requires setting.Valid()
  {
    Span(span.start - setting.Break(), span.end + setting.Break())
  }

  function Reservations(managed: seq<TimeInterval>, setting: Setting): seq<TimeInterval>
    requires setting.Valid()
  {
    seq(|managed|, i requires 0 <= i < |managed| => Padded(managed[i], setting))
  }

  function Available(task: Task, managed: seq<TimeInterval>, setting: Setting): seq<TimeInterval>
    requires setting.Valid()
  {
    Subtract(Constrained(task, setting.free, setting), Reservations(managed, setting))
  }

  // ----- candidates -----

  datatype Candidate = Candidate(
    interval: TimeInterval,
    block: TimeInterval,
    preferredMatch: int,
    deadlineBuffer: int,
    fragmentation: int)
  {
    function Score(): int {
      preferredMatch * 1_000_000 + block.DurationMinutes() * 100 + Min(deadlineBuffer, 10_080) - fragmentation
    }
  }

  /** The longest session that leaves nothing or enough for another; 0 when there is none. */
  function SplittableSession(remaining: int, available: int, minimum: int): int {
    if available < minimum || remaining < minimum then 0
    else if remaining <= available then remaining
    else
      var session := if 0 < remaining - available < minimum then remaining - minimum else available;
      if session >= minimum then session else 0
  }

  function SessionMinutes(task: Task, remaining: int, available: int, minimum: int): int {
    if task.splittable then SplittableSession(remaining, available, minimum)
    else if available >= remaining then remaining else 0
  }

  /** The preferred window on a day, as wall-clock times; the evening runs to the last microsecond. */
  function PreferredBounds(preferred: TimeOfDay): (int, int)
    requires preferred != AnyTime
  {
    match preferred
    case Morning => (0, 12 * HOUR)
    case Afternoon => (12 * HOUR, 17 * HOUR)
    case Evening => (17 * HOUR, DAY - 1)
  }

  /** The start of a session in an interval, and whether it falls in the preferred window. */
  function PreferredPlace(span: TimeInterval, minutes: int, preferred: TimeOfDay, zone: Zone): (int, int) {
    if preferred == AnyTime then (span.start, 0)
    else
      var day := LocalDay(zone, span.start);
      var windowStart := AtWall(zone, day, PreferredBounds(preferred).0);
      var windowEnd := AtWall(zone, day, PreferredBounds(preferred).1);
      var start := Max(span.start, windowStart);
      if start + minutes * MINUTE <= Min(span.end, windowEnd) then (start, 1) else (span.start, 0)
  }

  function Preference(task: Task, prefs: Preferences): TimeOfDay {
    if task.preferred != AnyTime then task.preferred else prefs.preferred
  }

  /** Whole minutes from the block's end to the deadline, never negative; `int(... // 60)` rounds down. */
  function DeadlineBuffer(task: Task, end: int): int {
    if task.deadline.Some? then Max((task.deadline.value - end) / MINUTE, 0) else 0
  }

  /** The session an interval offers the task, if the day's cap and the lengths allow one. */
  function CandidateIn(
    task: Task, remaining: int, span: TimeInterval, counter: SessionCounter, setting: Setting): Option<Candidate>
  {
    var minimum := EffectiveMinimum(task, setting.prefs);
    if Count(counter, task.id, LocalDay(setting.zone, span.start)) >= task.maxPerDay then None
    else
      var minutes := SessionMinutes(task, remaining, span.DurationMinutes(), minimum);
      if minutes <= 0 then None
      else
        var place := PreferredPlace(span, minutes, Preference(task, setting.prefs), setting.zone);
        var block: TimeInterval := Span(place.0, place.0 + minutes * MINUTE);
        var leftover := span.DurationMinutes() - minutes;
        Some(Candidate(
          span, block, place.1,
          DeadlineBuffer(task, block.end),
          if 0 < leftover < minimum then leftover else 0))
  }

  function Candidates(
    task: Task, remaining: int, spans: seq<TimeInterval>, counter: SessionCounter, setting: Setting): seq<Candidate>
  {
    if spans == [] then []
    else
      var c := CandidateIn(task, remaining, spans[|spans| - 1], counter, setting);
      Candidates(task, remaining, spans[..|spans| - 1], counter, setting) + (if c.Some? then [c.value] else [])
  }

  /** The selection key: higher score, then earlier start, then earlier end. */
  predicate Better(a: Candidate, b: Candidate) {
    || a.Score() > b.Score()
    || (a.Score() == b.Score() &&
        (a.block.start < b.block.start || (a.block.start == b.block.start && a.block.end < b.block.end)))
  }

  /** Python's `min`: the first of the best. */
  function Select(candidates: seq<Candidate>): (c: Candidate)
    requires candidates != []
    ensures c in candidates
  {
    var last := candidates[|candidates| - 1];
    if |candidates| == 1 then last
    else
      var best := Select(candidates[..|candidates| - 1]);
      if Better(last, best) then last else best
  }

  /** The candidate at index k: none is better, and it is better than every one before it. */
  predicate IsBest(candidates: seq<Candidate>, k: nat)
    requires k < |candidates|
  {
    && (forall j :: 0 <= j < |candidates| ==> !Better(candidates[j], candidates[k]))
    && (forall j :: 0 <= j < k ==> Better(candidates[k], candidates[j]))
  }

  /** The order of the selection key: a strict one, in which being no better is transitive. */
  lemma BetterIsStrict(a: Candidate, b: Candidate, c: Candidate)
    ensures !(Better(a, b) && Better(b, a))
    ensures Better(a, b) && !Better(c, b) ==> Better(a, c)
    ensures !Better(a, b) && !Better(b, c) ==> !Better(a, c)
  {
  }

  /** The selection is the best candidate by score, start and end, the first of them on a tie. */
  lemma {:induction false} SelectIsBest(candidates: seq<Candidate>) returns (k: nat)
    requires candidates != []
    ensures k < |candidates| && candidates[k] == Select(candidates) && IsBest(candidates, k)
  {
    hide Better;
    var n := |candidates| - 1;
    var last := candidates[n];
    if n == 0 {
      k := 0;
      BetterIsStrict(last, last, last);
    } else {
      k := SelectIsBest(candidates[..n]);
      var best := candidates[k];
      assert candidates[..n][k] == best;
      forall j | 0 <= j < n
        ensures !Better(candidates[j], best)
        ensures Better(last, best) ==> Better(last, candidates[j])
      {
        assert !Better(candidates[..n][j], candidates[..n][k]);
        BetterIsStrict(last, best, candidates[j]);
      }
      forall j | 0 <= j < k ensures Better(best, candidates[j]) {
        assert Better(candidates[..n][k], candidates[..n][j]);
      }
      forall j | 0 <= j < n ensures Better(last, best) ==> !Better(candidates[j], last) {
        BetterIsStrict(last, candidates[j], candidates[j]);
      }
      BetterIsStrict(last, last, last);
      if Better(last, best) {
        k := n;
      }
    }
  }

  /** Every candidate is a positive session of at most the remaining minutes, inside its interval. */
  lemma {:induction false} CandidatesFit(
    task: Task, remaining: int, spans: seq<TimeInterval>, counter: SessionCounter, setting: Setting)
    requires setting.Valid() && remaining > 0
    ensures forall c | c in Candidates(task, remaining, spans, counter, setting) ::
      && c.interval in spans
      && CandidateIn(task, remaining, c.interval, counter, setting) == Some(c)
      && Within(c.block, c.interval)
      && 0 < c.block.DurationMinutes() <= remaining
  {
    if spans != [] {
      CandidatesFit(task, remaining, spans[..|spans| - 1], counter, setting);
      assert forall s | s in spans[..|spans| - 1] :: s in spans;
    }
  }

  // ----- placing one task -----

  datatype Placement = Placement(
    blocks: seq<Block>,
    remaining: int,
    managed: seq<TimeInterval>,
    counter: SessionCounter)

  /** The block the best candidate books, if there is a candidate. */
  function NextBlock(
    task: Task, remaining: int, managed: seq<TimeInterval>, counter: SessionCounter, setting: Setting)
    : (r: Option<TimeInterval>)
    requires setting.Valid() && remaining > 0
    ensures r.Some? ==> 0 < r.value.DurationMinutes() <= remaining
  {
    var candidates := Candidates(task, remaining, Available(task, managed, setting), counter, setting);
    CandidatesFit(task, remaining, Available(task, managed, setting), counter, setting);
    if candidates == [] then None else Some(Select(candidates).block)
  }

  /** A block is booked exactly when there is a candidate, and it is the block of the best one. */
  ghost predicate BooksBest(r: Option<TimeInterval>, candidates: seq<Candidate>) {
    if candidates == [] then r.None?
    else exists k: nat | k < |candidates| :: IsBest(candidates, k) && r == Some(candidates[k].block)
  }

  lemma NextBlockIsBest(
    task: Task, remaining: int, managed: seq<TimeInterval>, counter: SessionCounter, setting: Setting)
    requires setting.Valid() && remaining > 0
    ensures BooksBest(NextBlock(task, remaining, managed, counter, setting),
                      Candidates(task, remaining, Available(task, managed, setting), counter, setting))
  {
    hide Available, Candidates, IsBest, Select;
    var candidates := Candidates(task, remaining, Available(task, managed, setting), counter, setting);
    if candidates != [] {
      var k := SelectIsBest(candidates);
    }
  }

  function CountBlock(counter: SessionCounter, id: string, block: TimeInterval, zone: Zone): SessionCounter {
    CountUp(counter, id, LocalDay(zone, block.start))
  }

  /** The `while remaining` loop: book the best candidate, go on with what is left. */
  function Place(
    task: Task, remaining: int, managed: seq<TimeInterval>, counter: SessionCounter, setting: Setting): Placement
    requires setting.Valid() && remaining >= 0
    decreases remaining
  {
    if remaining == 0 then Placement([], 0, managed, counter)
    else
      var next := NextBlock(task, remaining, managed, counter, setting);
      if next.None? then Placement([], remaining, managed, counter)
      else
        var left := remaining - next.value.DurationMinutes();
        var managed' := managed + [next.value];
        var counter' := CountBlock(counter, task.id, next.value, setting.zone);
        if task.splittable then
          var rest := Place(task, left, managed', counter', setting);
          rest.(blocks := [Block(task.id, next.value)] + rest.blocks)
        else
          Placement([Block(task.id, next.value)], left, managed', counter')
  }

  // ----- all tasks -----

  datatype Run = Run(
    managed: seq<TimeInterval>,
    counter: SessionCounter,
    scheduled: seq<Block>,
    unscheduled: seq<Unscheduled>)

  predicate AcceptedValid(accepted: seq<AcceptedBlock>) {
    forall b | b in accepted :: b.start < b.end
  }

  /** The dataclass order of accepted blocks: task id, start, end. */
  predicate AcceptedLe(a: AcceptedBlock, b: AcceptedBlock) {
    if a.taskId != b.taskId then StringLe(a.taskId, b.taskId)
    else a.start < b.start || (a.start == b.start && a.end <= b.end)
  }

  /** The accepted blocks as blocks. */
  function AsBlocks(accepted: seq<AcceptedBlock>): seq<Block>
    requires AcceptedValid(accepted)
  {
    seq(|accepted|, i requires 0 <= i < |accepted| =>
      Block(accepted[i].taskId, Span(accepted[i].start, accepted[i].end)))
  }

  function Spans(blocks: seq<Block>): seq<TimeInterval> {
    seq(|blocks|, i requires 0 <= i < |blocks| => blocks[i].span)
  }

  /** Minutes a block gives a task. */
  function MinutesFor(id: string): Block -> int {
    (b: Block) => if b.taskId == id then b.span.DurationMinutes() else 0
  }

  function Minutes(blocks: seq<Block>, id: string): int {
    SumBy(blocks, MinutesFor(id))
  }

  /** Counts a block of a task starting on a local day. */
  function OnDay(id: string, day: int, zone: Zone): Block -> int {
    (b: Block) => Indicator(b.taskId == id && LocalDay(zone, b.span.start) == day)
  }

  function SessionsOn(blocks: seq<Block>, id: string, day: int, zone: Zone): int {
    SumBy(blocks, OnDay(id, day, zone))
  }

  function CounterOf(blocks: seq<Block>, zone: Zone): SessionCounter {
    if blocks == [] then map[]
    else
      var last := blocks[|blocks| - 1];
      CountBlock(CounterOf(blocks[..|blocks| - 1], zone), last.taskId, last.span, zone)
  }

  /** One reported shortfall for each task that fails validation, in the order given. */
  function InvalidReports(tasks: seq<Task>): seq<Unscheduled> {
    if tasks == [] then []
    else
      var last := tasks[|tasks| - 1];
      InvalidReports(tasks[..|tasks| - 1])
      + (if TaskInvalid(last) then [Unscheduled(last.id, Max(last.duration, 0))] else [])
  }

  /** What the accepted blocks leave of a task. */
  function Remaining(task: Task, accepted: seq<Block>): int {
    Max(task.duration - Minutes(accepted, task.id), 0)
  }

  function RunTask(run: Run, task: Task, accepted: seq<Block>, setting: Setting): Run
    requires setting.Valid()
  {
    var remaining := Remaining(task, accepted);
    if remaining == 0 then run
    else
      var p := Place(task, remaining, run.managed, run.counter, setting);
      Run(p.managed, p.counter, run.scheduled + p.blocks,
          run.unscheduled + (if p.remaining != 0 then [Unscheduled(task.id, p.remaining)] else []))
  }

  /** The state before the first task. */
  function Start(tasks: seq<Task>, accepted: seq<Block>, setting: Setting): Run {
    Run(Spans(accepted), CounterOf(accepted, setting.zone), accepted, InvalidReports(tasks))
  }

  /** The state after the tasks, placed in the order given. */
  function RunAll(start: Run, ordered: seq<Task>, accepted: seq<Block>, setting: Setting): Run
    requires setting.Valid()
  {
    if ordered == [] then start
    else
      RunTask(RunAll(start, ordered[..|ordered| - 1], accepted, setting), ordered[|ordered| - 1], accepted, setting)
  }

  function OrderedTasks(tasks: seq<Task>): seq<Task> {
    Sort(Filter(tasks, TaskValid), TaskLe)
  }

  predicate BlockLe(a: Block, b: Block) {
    if a.span != b.span then SpanLe(a.span, b.span) else StringLe(a.taskId, b.taskId)
  }

  predicate UnscheduledLe(a: Unscheduled, b: Unscheduled) {
    StringLe(a.taskId, b.taskId)
  }

  // ----- warnings about the accepted blocks -----

  /** `task_by_id`: the last task given with the id. */
  function TaskById(tasks: seq<Task>, id: string): Option<Task> {
    if tasks == [] then None
    else if tasks[|tasks| - 1].id == id then Some(tasks[|tasks| - 1])
    else TaskById(tasks[..|tasks| - 1], id)
  }

  predicate OutsideTaskWindow(span: TimeInterval, task: Task) {
    || (task.earliest.Some? && span.start < task.earliest.value)
    || (task.deadline.Some? && span.end > task.deadline.value)
  }

  predicate TooClose(a: TimeInterval, b: TimeInterval, gap: int) {
    a.end <= b.start < a.end + gap || b.end <= a.start < b.end + gap
  }

  function OwnWarnings(block: Block, tasks: seq<Task>, setting: Setting): seq<Warning> {
    var task := TaskById(tasks, block.taskId);
    (if task.None? then [Warning(UnknownTask, [block.taskId])]
     else if TaskInvalid(task.value) || OutsideTaskWindow(block.span, task.value) then
       [Warning(HardConstraint, [block.taskId])]
     else [])
    + (if exists f | f in setting.free :: Within(block.span, f) then []
       else [Warning(OutsideFreeTime, [block.taskId])])
  }

  function IdPair(a: string, b: string): seq<string> {
    if StringLe(a, b) then [a, b] else [b, a]
  }

  function PairWarnings(a: Block, b: Block, setting: Setting): seq<Warning> {
    if Overlaps(a.span, b.span) then [Warning(BlocksOverlap, IdPair(a.taskId, b.taskId))]
    else if TooClose(a.span, b.span, setting.Break()) then [Warning(HardConstraint, IdPair(a.taskId, b.taskId))]
    else []
  }

  /** A block against each of the later blocks given. */
  function PairsWarnings(a: Block, others: seq<Block>, setting: Setting): seq<Warning> {
    if others == [] then []
    else PairsWarnings(a, others[..|others| - 1], setting) + PairWarnings(a, others[|others| - 1], setting)
  }

  /** The warnings of the first k blocks. */
  function BlockWarnings(blocks: seq<Block>, k: nat, tasks: seq<Task>, setting: Setting): seq<Warning>
    requires k <= |blocks|
  {
    if k == 0 then []
    else
      BlockWarnings(blocks, k - 1, tasks, setting)
      + OwnWarnings(blocks[k - 1], tasks, setting)
      + PairsWarnings(blocks[k - 1], blocks[k..], setting)
  }

  /** The ids of the blocks, each once: the keys of the minutes counter. */
  function BlockIds(blocks: seq<Block>): seq<string> {
    if blocks == [] then []
    else
      var ids := BlockIds(blocks[..|blocks| - 1]);
      var id := blocks[|blocks| - 1].taskId;
      if id in ids then ids else ids + [id]
  }

  function ExcessWarnings(ids: seq<string>, blocks: seq<Block>, tasks: seq<Task>): seq<Warning> {
    if ids == [] then []
    else
      var id := ids[|ids| - 1];
      var task := TaskById(tasks, id);
      ExcessWarnings(ids[..|ids| - 1], blocks, tasks)
      + (if task.Some? && Minutes(blocks, id) > task.value.duration then [Warning(HardConstraint, [id])] else [])
  }

  function AcceptedWarnings(blocks: seq<Block>, tasks: seq<Task>, setting: Setting): seq<Warning> {
    BlockWarnings(blocks, |blocks|, tasks, setting)
    + ExcessWarnings(Sort(BlockIds(blocks), StringLe), blocks, tasks)
  }

  function WarningRank(code: WarningCode): int {
    match code
    case HardConstraint => 0
    case OutsideFreeTime => 1
    case UnknownTask => 2
    case BlocksOverlap => 3
  }

  /** By the code's text, then by the ids. */
  predicate WarningLe(a: Warning, b: Warning) {
    if a.code != b.code then WarningRank(a.code) < WarningRank(b.code) else TupleLe(a.taskIds, b.taskIds)
  }

  // ----- schedule_tasks -----

  function AcceptedBlocks(accepted: seq<AcceptedBlock>): seq<Block>
    requires AcceptedValid(accepted)
  {
    SortKeepsValid(accepted);
    AsBlocks(Sort(accepted, AcceptedLe))
  }

  lemma SortKeepsValid(accepted: seq<AcceptedBlock>)
    requires AcceptedValid(accepted)
    ensures AcceptedValid(Sort(accepted, AcceptedLe))
  {
    SameElements(Sort(accepted, AcceptedLe), accepted);
  }

  /** The free intervals in order, with the preferences and the zone. */
  function SettingOf(free: seq<TimeInterval>, prefs: Preferences, zone: Zone): Setting {
    Setting(Sort(free, SpanLe), prefs, zone)
  }

  /** The state after every valid task has been placed. */
  function FinalRun(tasks: seq<Task>, accepted: seq<Block>, setting: Setting): Run
    requires setting.Valid()
  {
    RunAll(Start(tasks, accepted, setting), OrderedTasks(tasks), accepted, setting)
  }

  /** None of the three errors applies to the call. */
  predicate Accepts(prefs: Preferences, accepted: seq<AcceptedBlock>) {
    prefs.minimumBreak >= 0 && prefs.defaultMinSession > 0 && AcceptedValid(accepted)
  }

  /** The result of a call that raises nothing. */
  function Scheduled(
    tasks: seq<Task>, free: seq<TimeInterval>, prefs: Preferences, zone: Zone, accepted: seq<AcceptedBlock>)
    : SchedulerResult
    requires Accepts(prefs, accepted)
  {
    var setting := SettingOf(free, prefs, zone);
    var blocks := AcceptedBlocks(accepted);
    var run := FinalRun(tasks, blocks, setting);
    SchedulerResult(
      Sort(run.scheduled, BlockLe),
      Sort(run.unscheduled, UnscheduledLe),
      Sort(AcceptedWarnings(blocks, tasks, setting), WarningLe))
  }

  function ScheduleTasks(
    tasks: seq<Task>, free: seq<TimeInterval>, prefs: Preferences, zone: Zone, accepted: seq<AcceptedBlock>)
    : (r: Result<SchedulerResult, Error>)
    ensures r.Ok? <==> Accepts(prefs, accepted)
    ensures r.Ok? ==> r.value == Scheduled(tasks, free, prefs, zone, accepted)
  {
    if prefs.minimumBreak < 0 then Err(NegativeBreak)
    else if prefs.defaultMinSession <= 0 then Err(NonPositiveMinimumSession)
    else if !AcceptedValid(accepted) then Err(InvalidAcceptedBlock)
    else Ok(Scheduled(tasks, free, prefs, zone, accepted))
  }
}
