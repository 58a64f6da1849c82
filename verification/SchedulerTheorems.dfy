/**
  The scheduler's promises, on the result `schedule_tasks` returns.
 */
module SchedulerTheorems {
  import opened Prelude
  import opened Sorting
  import opened Intervals
  import opened Zones
  import opened Scheduler
  import opened Placement
  import opened PlaceLoop
  import opened RunLoop

  /** The blocks the run added to the accepted ones, in the order it booked them. */
  function NewBlocks(
    tasks: seq<Task>, free: seq<TimeInterval>, prefs: Preferences, zone: Zone, accepted: seq<AcceptedBlock>)
    : seq<Block>
    requires SettingOf(free, prefs, zone).Valid() && AcceptedValid(accepted)
  {
    var blocks := AcceptedBlocks(accepted);
    var run := FinalRun(tasks, blocks, SettingOf(free, prefs, zone));
    KeepsAccepted(tasks, blocks, SettingOf(free, prefs, zone));
    run.scheduled[|blocks|..]
  }

  lemma KeepsAccepted(tasks: seq<Task>, blocks: seq<Block>, setting: Setting)
    requires setting.Valid()
    ensures blocks <= FinalRun(tasks, blocks, setting).scheduled
    ensures Consistent(FinalRun(tasks, blocks, setting), setting.zone)
  {
    StartConsistent(tasks, blocks, setting);
    RunConsistent(Start(tasks, blocks, setting), OrderedTasks(tasks), blocks, setting);
  }

  lemma FinalSound(tasks: seq<Task>, blocks: seq<Block>, setting: Setting)
    requires setting.Valid()
    ensures SoundFrom(FinalRun(tasks, blocks, setting), |blocks|, tasks, setting)
  {
    hide SoundBlock;
    var start := Start(tasks, blocks, setting);
    StartConsistent(tasks, blocks, setting);
    SameElements(OrderedTasks(tasks), Filter(tasks, TaskValid));
    assert |Spans(blocks)| == |blocks|;
    RunSound(start, |blocks|, OrderedTasks(tasks), tasks, blocks, setting);
  }

  predicate BlocksApart(a: Block, b: Block, gap: int) {
    Apart(a.span, b.span, gap)
  }

  /** Sound in the caller's free intervals, in whatever order they were given. */
  ghost predicate SoundForCaller(task: Task, b: Block, free: seq<TimeInterval>, prefs: Preferences, zone: Zone) {
    && b.taskId == task.id
    && b.span.end == b.span.start + b.span.DurationMinutes() * MINUTE
    && exists f | f in free :: SoundIn(task, b.span, f, Setting(free, prefs, zone))
  }

  lemma CallerSound(task: Task, b: Block, free: seq<TimeInterval>, prefs: Preferences, zone: Zone)
    requires SoundBlock(task, b, SettingOf(free, prefs, zone))
    ensures SoundForCaller(task, b, free, prefs, zone)
  {
    var setting := SettingOf(free, prefs, zone);
    SameElements(setting.free, free);
    var f :| f in setting.free && SoundIn(task, b.span, f, setting);
    assert f in free && SoundIn(task, b.span, f, Setting(free, prefs, zone));
  }

  /**
    Placement soundness. The result is the accepted blocks and the new ones; each new block
    belongs to a valid task, lies in one free interval, in the task's window, before the
    cutoff of the day its clipped interval starts, for whole minutes, and keeps the minimum
    break from every accepted block and every other new block.
   */
  lemma {:induction false} PlacementIsSound(
    tasks: seq<Task>, free: seq<TimeInterval>, prefs: Preferences, zone: Zone, accepted: seq<AcceptedBlock>)
    requires Accepts(prefs, accepted)
    ensures var r := Scheduled(tasks, free, prefs, zone, accepted);
      var placed := NewBlocks(tasks, free, prefs, zone, accepted);
      var gap := prefs.minimumBreak * MINUTE;
      && multiset(r.blocks) == multiset(AsBlocks(accepted)) + multiset(placed)
      && (forall b | b in placed :: exists t | t in tasks :: TaskValid(t) && SoundForCaller(t, b, free, prefs, zone))
      && (forall b, a | b in placed && a in AsBlocks(accepted) :: BlocksApart(b, a, gap))
      && (forall i, j :: 0 <= i < j < |placed| ==> BlocksApart(placed[i], placed[j], gap))
  {
    hide FinalRun, NewBlocks, AcceptedBlocks, BlocksApart, AcceptedWarnings, OrderedTasks, Spans, ApartFrom;
    var blocks := AcceptedBlocks(accepted);
    var run := FinalRun(tasks, blocks, SettingOf(free, prefs, zone));
    var placed := NewBlocks(tasks, free, prefs, zone, accepted);
    SplitRun(tasks, free, prefs, zone, accepted);
    AcceptedPermutation(accepted);
    EachPlacedSound(tasks, free, prefs, zone, accepted);
    NewBlocksApart(run, blocks, placed, SettingOf(free, prefs, zone));
    SameElements(blocks, AsBlocks(accepted));
  }

  /** The run books the accepted blocks and then the new ones. */
  lemma SplitRun(
    tasks: seq<Task>, free: seq<TimeInterval>, prefs: Preferences, zone: Zone, accepted: seq<AcceptedBlock>)
    requires SettingOf(free, prefs, zone).Valid() && AcceptedValid(accepted)
    ensures var run := FinalRun(tasks, AcceptedBlocks(accepted), SettingOf(free, prefs, zone));
      && run.scheduled == AcceptedBlocks(accepted) + NewBlocks(tasks, free, prefs, zone, accepted)
      && run.managed == Spans(run.scheduled)
      && ApartFrom(run.managed, |AcceptedBlocks(accepted)|, SettingOf(free, prefs, zone).Break())
  {
    hide FinalRun, AcceptedBlocks, OrderedTasks, SoundBlock, ApartFrom;
    KeepsAccepted(tasks, AcceptedBlocks(accepted), SettingOf(free, prefs, zone));
    FinalSound(tasks, AcceptedBlocks(accepted), SettingOf(free, prefs, zone));
  }

  lemma EachPlacedSound(
    tasks: seq<Task>, free: seq<TimeInterval>, prefs: Preferences, zone: Zone, accepted: seq<AcceptedBlock>)
    requires SettingOf(free, prefs, zone).Valid() && AcceptedValid(accepted)
    ensures forall b | b in NewBlocks(tasks, free, prefs, zone, accepted) ::
      exists t | t in tasks :: TaskValid(t) && SoundForCaller(t, b, free, prefs, zone)
  {
    hide FinalRun, AcceptedBlocks, OrderedTasks, SoundBlock, SoundForCaller, ApartFrom, TaskValid;
    var setting := SettingOf(free, prefs, zone);
    var blocks := AcceptedBlocks(accepted);
    var run := FinalRun(tasks, blocks, setting);
    var placed := NewBlocks(tasks, free, prefs, zone, accepted);
    KeepsAccepted(tasks, blocks, setting);
    FinalSound(tasks, blocks, setting);
    forall b | b in placed ensures exists t | t in tasks :: TaskValid(t) && SoundForCaller(t, b, free, prefs, zone) {
      var i :| 0 <= i < |placed| && placed[i] == b;
      assert run.scheduled[|blocks| + i] == b;
      var t :| t in tasks && TaskValid(t) && SoundBlock(t, b, setting);
      CallerSound(t, b, free, prefs, zone);
    }
  }

  lemma NewBlocksApart(run: Run, blocks: seq<Block>, placed: seq<Block>, setting: Setting)
    requires run.scheduled == blocks + placed && run.managed == Spans(run.scheduled)
    requires ApartFrom(run.managed, |blocks|, setting.Break())
    ensures forall b, a | b in placed && a in blocks :: BlocksApart(b, a, setting.Break())
    ensures forall i, j :: 0 <= i < j < |placed| ==> BlocksApart(placed[i], placed[j], setting.Break())
  {
    forall b, a | b in placed && a in blocks ensures BlocksApart(b, a, setting.Break()) {
      var i :| 0 <= i < |placed| && placed[i] == b;
      var j :| 0 <= j < |blocks| && blocks[j] == a;
      assert Apart(run.managed[j], run.managed[|blocks| + i], setting.Break());
    }
    forall i, j | 0 <= i < j < |placed| ensures BlocksApart(placed[i], placed[j], setting.Break()) {
      assert Apart(run.managed[|blocks| + i], run.managed[|blocks| + j], setting.Break());
    }
  }

  function OneAsBlock(a: AcceptedBlock): Block
    requires a.start < a.end
  {
    Block(a.taskId, Span(a.start, a.end))
  }

  lemma {:induction false} AsBlocksInsert(s: seq<AcceptedBlock>, x: AcceptedBlock)
    requires AcceptedValid(s) && x.start < x.end
    ensures AcceptedValid(Insert(s, x, AcceptedLe))
    ensures multiset(AsBlocks(Insert(s, x, AcceptedLe))) == multiset(AsBlocks(s)) + multiset{OneAsBlock(x)}
  {
    if s == [] || AcceptedLe(s[|s| - 1], x) {
      assert AsBlocks(s + [x]) == AsBlocks(s) + [OneAsBlock(x)];
    } else {
      var init, last := s[..|s| - 1], s[|s| - 1];
      assert last in s;
      assert forall b | b in init :: b in s;
      AsBlocksInsert(init, x);
      var r := Insert(init, x, AcceptedLe);
      assert AsBlocks(r + [last]) == AsBlocks(r) + [OneAsBlock(last)];
      assert AsBlocks(s) == AsBlocks(init) + [OneAsBlock(last)];
    }
  }

  lemma {:induction false} AcceptedPermutation(accepted: seq<AcceptedBlock>)
    requires AcceptedValid(accepted)
    ensures multiset(AcceptedBlocks(accepted)) == multiset(AsBlocks(accepted))
  {
    if accepted != [] {
      hide AcceptedBlocks, AsBlocks, AcceptedValid;
      var init, last := accepted[..|accepted| - 1], accepted[|accepted| - 1];
      assert accepted == init + [last];
      AsBlocksNext(init, last);
      AcceptedPermutation(init);
      AcceptedNext(init, last);
    }
  }

  lemma AsBlocksNext(init: seq<AcceptedBlock>, last: AcceptedBlock)
    requires AcceptedValid(init + [last])
    ensures AcceptedValid(init) && last.start < last.end
    ensures AsBlocks(init + [last]) == AsBlocks(init) + [OneAsBlock(last)]
  {
    assert (init + [last])[|init|] == last;
    assert forall b | b in init :: b in init + [last];
  }

  lemma {:induction false} AcceptedNext(init: seq<AcceptedBlock>, last: AcceptedBlock)
    requires AcceptedValid(init) && AcceptedValid(init + [last]) && last.start < last.end
    ensures multiset(AcceptedBlocks(init + [last])) == multiset(AcceptedBlocks(init)) + multiset{OneAsBlock(last)}
  {
    hide Sort, AsBlocks, AcceptedValid, AcceptedLe;
    SortKeepsValid(init);
    AsBlocksInsert(Sort(init, AcceptedLe), last);
    SortNext(init, last, AcceptedLe);
  }

  // ----- minute conservation -----

  /** The minutes of the accepted blocks of a task. */
  function AcceptedMinutes(accepted: seq<AcceptedBlock>, id: string): int
    requires AcceptedValid(accepted)
  {
    Minutes(AcceptedBlocks(accepted), id)
  }

  lemma ReportAdded(reports: seq<Unscheduled>, id: string, remaining: int)
    requires Reports(reports, id) == []
    ensures Reports(reports + (if remaining != 0 then [Unscheduled(id, remaining)] else []), id) ==
            (if remaining != 0 then [Unscheduled(id, remaining)] else [])
  {
    FilterNext(reports, Unscheduled(id, remaining), ForTask(id));
    assert reports + [] == reports;
  }

  /** What one call of `_place_task` does to the books of its task. */
  lemma RunTaskBooks(run: Run, task: Task, accepted: seq<Block>, setting: Setting)
    requires setting.Valid() && Reports(run.unscheduled, task.id) == []
    requires Minutes(run.scheduled, task.id) == Minutes(accepted, task.id)
    ensures var next := RunTask(run, task, accepted, setting);
      var made := Minutes(next.scheduled, task.id);
      var due := Max(task.duration, Minutes(accepted, task.id));
      && made <= due
      && Reports(next.unscheduled, task.id) == (if made < due then [Unscheduled(task.id, due - made)] else [])
      && (!task.splittable ==> BlockCount(next.scheduled, task.id) <= BlockCount(run.scheduled, task.id) + 1)
  {
    hide Place, MinutesFor, OfTask, SumBy, Reports, Spans;
    var remaining := Remaining(task, accepted);
    if remaining == 0 {
    } else {
      var p := Place(task, remaining, run.managed, run.counter, setting);
      PlaceShape(task, remaining, run.managed, run.counter, setting);
      SumByConcat(run.scheduled, p.blocks, MinutesFor(task.id));
      SumByConcat(run.scheduled, p.blocks, OfTask(task.id));
      CountAtMost(p.blocks, task.id);
      ReportAdded(run.unscheduled, task.id, p.remaining);
    }
  }

  lemma {:induction false} CountAtMost(blocks: seq<Block>, id: string)
    ensures BlockCount(blocks, id) <= |blocks|
  {
    if blocks != [] {
      CountAtMost(blocks[..|blocks| - 1], id);
    }
  }

  /** Sorting a list keeps the one report a task may have. */
  lemma {:induction false} SortedReports(unscheduled: seq<Unscheduled>, id: string)
    requires |Reports(unscheduled, id)| <= 1
    ensures Reports(Sort(unscheduled, UnscheduledLe), id) == Reports(unscheduled, id)
  {
    FilterPermutation(Sort(unscheduled, UnscheduledLe), unscheduled, ForTask(id));
    ShortPermutation(Reports(Sort(unscheduled, UnscheduledLe), id), Reports(unscheduled, id));
  }

  lemma ShortPermutation(a: seq<Unscheduled>, b: seq<Unscheduled>)
    requires multiset(a) == multiset(b) && |b| <= 1
    ensures a == b
  {
    SameElements(a, b);
    if |b| == 1 {
      assert a[0] in b;
    }
  }

  /**
    Minute conservation. For a valid task with an id of its own, the minutes of all its
    blocks and the reported remainder make up the greater of its duration and the accepted
    minutes; a shortfall is reported once, no shortfall never; a task that may not be split
    gets at most one block more than it had.
   */
  lemma {:induction false} MinutesAreConserved(
    tasks: seq<Task>, free: seq<TimeInterval>, prefs: Preferences, zone: Zone, accepted: seq<AcceptedBlock>,
    task: Task)
    requires Accepts(prefs, accepted)
    requires task in tasks && TaskValid(task) && SoleId(tasks, task.id)
    ensures var r := Scheduled(tasks, free, prefs, zone, accepted);
      var made := Minutes(r.blocks, task.id);
      var due := Max(task.duration, AcceptedMinutes(accepted, task.id));
      && made <= due
      && Reports(r.unscheduled, task.id) == (if made < due then [Unscheduled(task.id, due - made)] else [])
      && (!task.splittable ==> BlockCount(r.blocks, task.id) <= BlockCount(AcceptedBlocks(accepted), task.id) + 1)
  {
    hide FinalRun, RunTask, AcceptedWarnings, OrderedTasks, MinutesFor, OfTask, SumBy, Reports, Consistent, SoleId,
         TaskValid, AcceptedBlocks, UnscheduledLe, BlockLe;
    var setting := SettingOf(free, prefs, zone);
    var blocks := AcceptedBlocks(accepted);
    var run := FinalRun(tasks, blocks, setting);
    SumBySort(run.scheduled, BlockLe, MinutesFor(task.id));
    SumBySort(run.scheduled, BlockLe, OfTask(task.id));
    SoleIsValid(tasks, task);
    NoInvalidReport(tasks, task.id);
    var before, after := OwnPlacement(tasks, task, blocks, setting);
    RunTaskBooks(before, task, blocks, setting);
    SortedReports(run.unscheduled, task.id);
  }

  // ----- invalid tasks -----

  /**
    Zoned times, an id, a positive duration, minimum session and cap, an earliest start before
    the deadline, and no minimum session longer than a task that may be split.
   */
  predicate WellGiven(task: Task) {
    && task.aware && task.id != "" && task.duration > 0 && task.minSession > 0 && task.maxPerDay > 0
    && (task.earliest.Some? && task.deadline.Some? ==> task.earliest.value < task.deadline.value)
    && (task.splittable ==> task.minSession <= task.duration)
  }

  lemma WellGivenIsValid(task: Task)
    ensures WellGiven(task) <==> TaskValid(task)
  {
  }

  lemma {:induction false} SoleInvalidReport(tasks: seq<Task>, task: Task)
    requires task in tasks && TaskInvalid(task) && SoleId(tasks, task.id)
    ensures Reports(InvalidReports(tasks), task.id) == [Unscheduled(task.id, Max(task.duration, 0))]
  {
    hide TaskInvalid, Reports;
    var n := |tasks| - 1;
    var init, last := tasks[..n], tasks[n];
    var report := Unscheduled(last.id, Max(last.duration, 0));
    FilterNext(InvalidReports(init), report, ForTask(task.id));
    if last == task {
      forall t | t in init ensures t.id != task.id {
        var i :| 0 <= i < |init| && init[i] == t;
        assert NotBoth(task.id)(tasks[i], tasks[n]);
      }
      NoInvalidReport(init, task.id);
      SoleReport(InvalidReports(init), report, task.id);
    } else {
      var i :| 0 <= i < |tasks| && tasks[i] == task;
      assert init[i] == task && NotBoth(task.id)(tasks[i], tasks[n]);
      SoleInit(tasks, task.id);
      SoleInvalidReport(init, task);
      OtherReport(InvalidReports(init), report, task.id);
      assert InvalidReports(init) + [] == InvalidReports(init);
    }
  }

  lemma SoleInit(tasks: seq<Task>, id: string)
    requires tasks != [] && SoleId(tasks, id)
    ensures SoleId(tasks[..|tasks| - 1], id)
  {
    var init := tasks[..|tasks| - 1];
    forall i, j | 0 <= i < j < |init| ensures NotBoth(id)(init[i], init[j]) {
      assert NotBoth(id)(tasks[i], tasks[j]);
    }
  }

  lemma SoleReport(reports: seq<Unscheduled>, u: Unscheduled, id: string)
    requires Reports(reports, id) == [] && u.taskId == id
    ensures Reports(reports + [u], id) == [u]
  {
    FilterNext(reports, u, ForTask(id));
  }

  lemma OtherReport(reports: seq<Unscheduled>, u: Unscheduled, id: string)
    requires u.taskId != id
    ensures Reports(reports + [u], id) == Reports(reports, id)
  {
    FilterNext(reports, u, ForTask(id));
    assert Reports(reports, id) + [] == Reports(reports, id);
  }

  /** A task that is not well given gets no block, and is reported once with its whole duration. */
  lemma {:induction false} InvalidIsReported(
    tasks: seq<Task>, free: seq<TimeInterval>, prefs: Preferences, zone: Zone, accepted: seq<AcceptedBlock>,
    task: Task)
    requires Accepts(prefs, accepted) && task in tasks && SoleId(tasks, task.id) && !WellGiven(task)
    ensures var r := Scheduled(tasks, free, prefs, zone, accepted);
      && Reports(r.unscheduled, task.id) == [Unscheduled(task.id, Max(task.duration, 0))]
      && BlockCount(r.blocks, task.id) == BlockCount(AcceptedBlocks(accepted), task.id)
  {
    hide FinalRun, RunAll, AcceptedWarnings, OrderedTasks, MinutesFor, OfTask, SumBy, Reports, SoleId, TaskInvalid,
         AcceptedBlocks, UnscheduledLe, BlockLe, WellGiven;
    WellGivenIsValid(task);
    var setting := SettingOf(free, prefs, zone);
    var blocks := AcceptedBlocks(accepted);
    var run := FinalRun(tasks, blocks, setting);
    InvalidLeftAlone(tasks, task, blocks, setting);
    SoleInvalidReport(tasks, task);
    SumBySort(run.scheduled, BlockLe, OfTask(task.id));
    SortedReports(run.unscheduled, task.id);
  }

  lemma InvalidLeftAlone(tasks: seq<Task>, task: Task, blocks: seq<Block>, setting: Setting)
    requires setting.Valid() && task in tasks && SoleId(tasks, task.id) && TaskInvalid(task)
    ensures SameFor(Start(tasks, blocks, setting), FinalRun(tasks, blocks, setting), task.id)
  {
    hide RunAll, OrderedTasks, Start, SameFor, TaskInvalid;
    OrderedSoleId(tasks, task.id);
    forall t | t in OrderedTasks(tasks) ensures t.id != task.id {
      var i :| 0 <= i < |tasks| && tasks[i] == task;
      var j :| 0 <= j < |tasks| && tasks[j] == t;
      assert i < j ==> NotBoth(task.id)(tasks[i], tasks[j]);
      assert j < i ==> NotBoth(task.id)(tasks[j], tasks[i]);
    }
    OthersLeaveAlone(Start(tasks, blocks, setting), OrderedTasks(tasks), task.id, blocks, setting);
  }

  // ----- splitting and the day cap -----

  /** No local day gets more sessions of a task than its cap, or than were accepted that day. */
  lemma {:induction false} SessionsPerDayCapped(
    tasks: seq<Task>, free: seq<TimeInterval>, prefs: Preferences, zone: Zone, accepted: seq<AcceptedBlock>,
    task: Task, day: int)
    requires Accepts(prefs, accepted) && KeepsDay(zone)
    requires task in tasks && TaskValid(task) && SoleId(tasks, task.id)
    ensures SessionsOn(Scheduled(tasks, free, prefs, zone, accepted).blocks, task.id, day, zone) <=
            Max(task.maxPerDay, SessionsOn(AcceptedBlocks(accepted), task.id, day, zone))
  {
    hide FinalRun, AcceptedWarnings, OrderedTasks, OnDay, Count, KeepsDay, Place, Remaining;
    var setting := SettingOf(free, prefs, zone);
    var blocks := AcceptedBlocks(accepted);
    var run := FinalRun(tasks, blocks, setting);
    KeepsAccepted(tasks, blocks, setting);
    StartConsistent(tasks, blocks, setting);
    SumBySort(run.scheduled, BlockLe, OnDay(task.id, day, zone));
    var before, after := OwnPlacement(tasks, task, blocks, setting);
    var remaining := Remaining(task, blocks);
    RemainingNonNegative(task, blocks);
    if remaining != 0 {
      PlaceRespectsCap(task, remaining, before.managed, before.counter, setting, day);
    }
  }

  /** A splittable remainder that starts long enough for a session is never left too short for one. */
  lemma {:induction false} RemainderFitsSession(
    tasks: seq<Task>, free: seq<TimeInterval>, prefs: Preferences, zone: Zone, accepted: seq<AcceptedBlock>,
    task: Task)
    requires Accepts(prefs, accepted)
    requires task in tasks && TaskValid(task) && SoleId(tasks, task.id) && task.splittable
    requires LongEnough(task, task.duration - AcceptedMinutes(accepted, task.id), prefs)
    ensures forall u | u in Reports(Scheduled(tasks, free, prefs, zone, accepted).unscheduled, task.id) ::
      LongEnough(task, u.remaining, prefs)
  {
    hide FinalRun, AcceptedWarnings, OrderedTasks, Place, Reports, Consistent, MinutesFor;
    var setting := SettingOf(free, prefs, zone);
    var blocks := AcceptedBlocks(accepted);
    var run := FinalRun(tasks, blocks, setting);
    SoleIsValid(tasks, task);
    NoInvalidReport(tasks, task.id);
    var before, after := OwnPlacement(tasks, task, blocks, setting);
    var remaining := Remaining(task, blocks);
    var p := Place(task, remaining, before.managed, before.counter, setting);
    PlaceLeavesSession(task, remaining, before.managed, before.counter, setting);
    PlaceShape(task, remaining, before.managed, before.counter, setting);
    ReportAdded(before.unscheduled, task.id, p.remaining);
    SortedReports(run.unscheduled, task.id);
  }

  // ----- maximality -----

  /**
    A session a task could still be given beside a finished schedule: inside one free
    interval, in its window, before the cutoff of its day, the break away from every block,
    on a day below its cap, and of a legal length for the remaining minutes.
   */
  ghost predicate CouldStillPlace(
    task: Task, remaining: int, span: TimeInterval, free: seq<TimeInterval>, prefs: Preferences, zone: Zone,
    blocks: seq<Block>)
  {
    && (exists f | f in free :: Within(span, f))
    && InWindow(task, span)
    && BeforeCutoff(LocalDay(zone, span.start), span, Setting(free, prefs, zone))
    && (forall b | b in blocks :: Apart(span, b.span, prefs.minimumBreak * MINUTE))
    && SessionsOn(blocks, task.id, LocalDay(zone, span.start), zone) < task.maxPerDay
    && span.end == span.start + span.DurationMinutes() * MINUTE
    && LegalMinutes(task, span.DurationMinutes(), remaining, prefs)
  }

  lemma StillFits(
    task: Task, remaining: int, span: TimeInterval, free: seq<TimeInterval>, prefs: Preferences, zone: Zone,
    run: Run, blocks: seq<Block>, managed: seq<TimeInterval>, counter: SessionCounter)
    requires CouldStillPlace(task, remaining, span, free, prefs, zone, blocks)
    requires Consistent(run, zone) && blocks == Sort(run.scheduled, BlockLe)
    requires managed <= run.managed
    requires forall day :: Count(counter, task.id, day) == Count(run.counter, task.id, day)
    ensures FitsBeside(task, remaining, span, managed, counter, SettingOf(free, prefs, zone))
  {
    hide InWindow, LegalMinutes, LocalDay, Count, OnDay;
    var setting := SettingOf(free, prefs, zone);
    SameElements(setting.free, free);
    SameElements(blocks, run.scheduled);
    SumBySort(run.scheduled, BlockLe, OnDay(task.id, LocalDay(zone, span.start), zone));
    SpansMembers(run.scheduled);
    forall m | m in managed ensures Apart(span, m, setting.Break()) {
      var i :| 0 <= i < |managed| && managed[i] == m;
      assert run.managed[i] == m;
      assert m in Spans(run.scheduled);
      var b :| b in run.scheduled && b.span == m;
      assert b in blocks;
    }
  }

  /** How the placement of a task of its own ended, as the result and the finished run tell it. */
  lemma {:induction false} EndOfPlacement(
    tasks: seq<Task>, task: Task, accepted: seq<Block>, setting: Setting)
    returns (p: Scheduler.Placement)
    requires setting.Valid() && task in tasks && TaskValid(task) && SoleId(tasks, task.id)
    ensures var run := FinalRun(tasks, accepted, setting);
      && Reports(Sort(run.unscheduled, UnscheduledLe), task.id) ==
         (if p.remaining != 0 then [Unscheduled(task.id, p.remaining)] else [])
      && 0 <= p.remaining
      && (p.remaining > 0 ==> NextBlock(task, p.remaining, p.managed, p.counter, setting).None?)
      && p.managed <= run.managed
      && forall day :: Count(p.counter, task.id, day) == Count(run.counter, task.id, day)
  {
    hide FinalRun, OrderedTasks, Place, Reports, MinutesFor, NextBlock, Count, Sort, UnscheduledLe;
    SoleIsValid(tasks, task);
    NoInvalidReport(tasks, task.id);
    var before, after := OwnPlacement(tasks, task, accepted, setting);
    var remaining := Remaining(task, accepted);
    RemainingNonNegative(task, accepted);
    p := Scheduler.Placement([], 0, before.managed, before.counter);
    if remaining != 0 {
      p := Place(task, remaining, before.managed, before.counter, setting);
      PlaceShape(task, remaining, before.managed, before.counter, setting);
      PlaceExhausts(task, remaining, before.managed, before.counter, setting);
      ReportAdded(before.unscheduled, task.id, p.remaining);
    }
    SortedReports(FinalRun(tasks, accepted, setting).unscheduled, task.id);
  }

  /**
    Maximality. With every free interval inside one local day, a valid task with an id of
    its own that is reported unscheduled could not have been given one more legal session.
   */
  lemma {:induction false} ScheduleIsMaximal(
    tasks: seq<Task>, free: seq<TimeInterval>, prefs: Preferences, zone: Zone, accepted: seq<AcceptedBlock>,
    task: Task, span: TimeInterval)
    requires Accepts(prefs, accepted)
    requires task in tasks && TaskValid(task) && SoleId(tasks, task.id)
    requires forall f | f in free :: OneLocalDay(f, zone)
    ensures var r := Scheduled(tasks, free, prefs, zone, accepted);
      forall report | report in Reports(r.unscheduled, task.id) ::
        !CouldStillPlace(task, report.remaining, span, free, prefs, zone, r.blocks)
  {
    hide FinalRun, AcceptedWarnings, AcceptedBlocks, Reports, Consistent, CouldStillPlace, FitsBeside, NextBlock,
         OneLocalDay, Count, SoleId, TaskValid, Sort;
    var setting, blocks := SettingOf(free, prefs, zone), AcceptedBlocks(accepted);
    SameElements(setting.free, free);
    var run := FinalRun(tasks, blocks, setting);
    KeepsAccepted(tasks, blocks, setting);
    var p := EndOfPlacement(tasks, task, blocks, setting);
    if p.remaining > 0 {
      NoBlockMeansNoFit(task, p.remaining, p.managed, p.counter, setting, span);
      if CouldStillPlace(task, p.remaining, span, free, prefs, zone, Sort(run.scheduled, BlockLe)) {
        StillFits(task, p.remaining, span, free, prefs, zone, run, Sort(run.scheduled, BlockLe), p.managed, p.counter);
      }
    }
  }
}
