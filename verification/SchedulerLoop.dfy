/**
  app/scheduling/scheduler.py in its own form: loops over lists, and a run whose
  reservations, session counter and result lists are updated in place. Every loop
  computes the function of the same step in module Scheduler.
 */
module SchedulerLoop {
  import opened Prelude
  import opened Sorting
  import opened Orders
  import opened Intervals
  import opened Zones
  import opened Scheduler
  import SlotChoice

  lemma TakeNext<T>(s: seq<T>, i: nat)
    requires i < |s|
    ensures s[..i + 1][..i] == s[..i] && s[..i + 1][i] == s[i] && |s[..i + 1]| == i + 1
    ensures s[..|s|] == s
  {
  }

  // _subtract_intervals
  method SubtractIntervals(sources: seq<TimeInterval>, reservations: seq<TimeInterval>)
    returns (result: seq<TimeInterval>)
    ensures result == Subtract(sources, reservations)
  {
    var ordered := Sort(reservations, SpanLe);
    result := sources;
    for i := 0 to |ordered|
      invariant result == SubtractInOrder(sources, ordered[..i])
    {
      TakeNext(ordered, i);
      result := CutEach(result, ordered[i]);
    }
    assert ordered[..|ordered|] == ordered;
  }

  lemma CutAllNext(sources: seq<TimeInterval>, k: nat, reservation: TimeInterval)
    requires k < |sources|
    ensures CutAll(sources[..k + 1], reservation) == CutAll(sources[..k], reservation) + Cut(sources[k], reservation)
  {
    hide Cut;
    TakeNext(sources, k);
  }

  lemma CutNothing(source: TimeInterval, r: TimeInterval)
    requires !Overlaps(source, r)
    ensures Cut(source, r) == [source]
  {
  }

  lemma CutInTwo(before: seq<TimeInterval>, source: TimeInterval, r: TimeInterval)
    requires Overlaps(source, r)
    ensures var front := if source.start < r.start then before + [Span(source.start, r.start)] else before;
      before + Cut(source, r) == if r.end < source.end then front + [Span(r.end, source.end)] else front
  {
  }

  /** The inner loop: one reservation against every source. */
  method CutEach(sources: seq<TimeInterval>, reservation: TimeInterval) returns (nextResult: seq<TimeInterval>)
    ensures nextResult == CutAll(sources, reservation)
  {
    nextResult := [];
    assert nextResult == CutAll(sources[..0], reservation);
    hide CutAll, Cut;
    for k := 0 to |sources|
      invariant nextResult == CutAll(sources[..k], reservation)
    {
      var source := sources[k];
      CutAllNext(sources, k, reservation);
      if reservation.end <= source.start || reservation.start >= source.end {
        CutNothing(source, reservation);
        nextResult := nextResult + [source];
        continue;
      }
      CutInTwo(nextResult, source, reservation);
      if source.start < reservation.start {
        nextResult := nextResult + [Span(source.start, reservation.start)];
      }
      if reservation.end < source.end {
        nextResult := nextResult + [Span(reservation.end, source.end)];
      }
    }
    assert sources[..|sources|] == sources;
  }

  // _available_for_task
  method AvailableForTask(task: Task, managed: seq<TimeInterval>, setting: Setting)
    returns (available: seq<TimeInterval>)
    requires setting.Valid()
    ensures available == Available(task, managed, setting)
  {
    var constrained: seq<TimeInterval> := [];
    for i := 0 to |setting.free|
      invariant constrained == Constrained(task, setting.free[..i], setting)
    {
      TakeNext(setting.free, i);
      var interval := setting.free[i];
      var start := if task.earliest.Some? then Max(interval.start, task.earliest.value) else interval.start;
      var end := if task.deadline.Some? then Min(interval.end, task.deadline.value) else interval.end;
      if start >= end {
        continue;
      }
      var clipped := ApplyCutoff(Span(start, end), setting);
      if clipped.Some? {
        constrained := constrained + [clipped.value];
      }
    }
    assert setting.free[..|setting.free|] == setting.free;
    available := SubtractIntervals(constrained, Reservations(managed, setting));
  }

  // _build_candidates
  method BuildCandidates(
    task: Task, remaining: int, intervals: seq<TimeInterval>, counter: SessionCounter, setting: Setting)
    returns (candidates: seq<Candidate>)
    ensures candidates == Candidates(task, remaining, intervals, counter, setting)
  {
    var minimumSession := EffectiveMinimum(task, setting.prefs);
    var preferred := if task.preferred != AnyTime then task.preferred else setting.prefs.preferred;
    candidates := [];
    for i := 0 to |intervals|
      invariant candidates == Candidates(task, remaining, intervals[..i], counter, setting)
    {
      TakeNext(intervals, i);
      var interval := intervals[i];
      var localDay := LocalDay(setting.zone, interval.start);
      if Count(counter, task.id, localDay) >= task.maxPerDay {
        continue;
      }
      var sessionMinutes := SessionMinutes(task, remaining, interval.DurationMinutes(), minimumSession);
      if sessionMinutes <= 0 {
        continue;
      }
      var place := PreferredPlace(interval, sessionMinutes, preferred, setting.zone);
      var block: TimeInterval := Span(place.0, place.0 + sessionMinutes * MINUTE);
      var leftover := interval.DurationMinutes() - sessionMinutes;
      var fragmentation := if 0 < leftover < minimumSession then leftover else 0;
      candidates := candidates
        + [Candidate(interval, block, place.1, DeadlineBuffer(task, block.end), fragmentation)];
    }
    assert intervals[..|intervals|] == intervals;
  }

  // the inner loop of _validate_accepted_blocks
  method ComparePairs(block: Block, others: seq<Block>, setting: Setting) returns (warnings: seq<Warning>)
    ensures warnings == PairsWarnings(block, others, setting)
  {
    warnings := [];
    for k := 0 to |others|
      invariant warnings == PairsWarnings(block, others[..k], setting)
    {
      TakeNext(others, k);
      var other := others[k];
      if Overlaps(block.span, other.span) {
        warnings := warnings + [Warning(BlocksOverlap, IdPair(block.taskId, other.taskId))];
      } else if TooClose(block.span, other.span, setting.Break()) {
        warnings := warnings + [Warning(HardConstraint, IdPair(block.taskId, other.taskId))];
      }
    }
    assert others[..|others|] == others;
  }

  method CheckAlone(block: Block, tasks: seq<Task>, setting: Setting) returns (warnings: seq<Warning>)
    ensures warnings == OwnWarnings(block, tasks, setting)
  {
    var task := TaskById(tasks, block.taskId);
    warnings := [];
    if task.None? {
      warnings := [Warning(UnknownTask, [block.taskId])];
    } else if TaskInvalid(task.value) || OutsideTaskWindow(block.span, task.value) {
      warnings := [Warning(HardConstraint, [block.taskId])];
    }
    if !exists f | f in setting.free :: Within(block.span, f) {
      warnings := warnings + [Warning(OutsideFreeTime, [block.taskId])];
    }
  }

  // the last loop of _validate_accepted_blocks
  method CheckExcess(ids: seq<string>, blocks: seq<Block>, tasks: seq<Task>) returns (warnings: seq<Warning>)
    ensures warnings == ExcessWarnings(ids, blocks, tasks)
  {
    warnings := [];
    for i := 0 to |ids|
      invariant warnings == ExcessWarnings(ids[..i], blocks, tasks)
    {
      TakeNext(ids, i);
      var task := TaskById(tasks, ids[i]);
      if task.Some? && Minutes(blocks, ids[i]) > task.value.duration {
        warnings := warnings + [Warning(HardConstraint, [ids[i]])];
      }
    }
    assert ids[..|ids|] == ids;
  }

  // _validate_accepted_blocks
  method ValidateAcceptedBlocks(blocks: seq<Block>, tasks: seq<Task>, setting: Setting)
    returns (warnings: seq<Warning>)
    ensures warnings == AcceptedWarnings(blocks, tasks, setting)
  {
    warnings := [];
    for index := 0 to |blocks|
      invariant warnings == BlockWarnings(blocks, index, tasks, setting)
    {
      var own := CheckAlone(blocks[index], tasks, setting);
      var pairs := ComparePairs(blocks[index], blocks[index + 1..], setting);
      warnings := warnings + own + pairs;
    }
    var excess := CheckExcess(Sort(BlockIds(blocks), StringLe), blocks, tasks);
    warnings := warnings + excess;
  }

  /** The result of the loop so far, put in front of what it still has to do. */
  function Prefixed(placed: seq<Block>, rest: Placement): Placement {
    rest.(blocks := placed + rest.blocks)
  }

  lemma PlaceEnds(
    task: Task, managed: seq<TimeInterval>, counter: SessionCounter, setting: Setting, placed: seq<Block>)
    requires setting.Valid()
    ensures Prefixed(placed, Place(task, 0, managed, counter, setting)) == Placement(placed, 0, managed, counter)
  {
  }

  /** One turn of the loop moves one block from what is to be done to what is done. */
  lemma {:induction false} PlaceTurn(
    task: Task, remaining: int, managed: seq<TimeInterval>, counter: SessionCounter, setting: Setting,
    placed: seq<Block>)
    requires setting.Valid() && remaining > 0
    ensures var next := NextBlock(task, remaining, managed, counter, setting);
      var whole := Prefixed(placed, Place(task, remaining, managed, counter, setting));
      whole ==
        if next.None? then Placement(placed, remaining, managed, counter)
        else
          var left := remaining - next.value.DurationMinutes();
          var managed' := managed + [next.value];
          var counter' := CountBlock(counter, task.id, next.value, setting.zone);
          var placed' := placed + [Block(task.id, next.value)];
          if task.splittable then Prefixed(placed', Place(task, left, managed', counter', setting))
          else Placement(placed', left, managed', counter')
  {
    hide NextBlock, CountBlock;
    var next := NextBlock(task, remaining, managed, counter, setting);
    if next.Some? && task.splittable {
      var rest := Place(task, remaining - next.value.DurationMinutes(), managed + [next.value],
                        CountBlock(counter, task.id, next.value, setting.zone), setting);
      assert placed + ([Block(task.id, next.value)] + rest.blocks) ==
             placed + [Block(task.id, next.value)] + rest.blocks;
    }
  }

  /** The lists and the counter that schedule_tasks and _place_task update as they go. */
  class SchedulerRun {
    var managed: seq<TimeInterval>
    var counter: SessionCounter
    var scheduled: seq<Block>
    var unscheduled: seq<Unscheduled>
    const setting: Setting

    ghost function State(): Run
      reads this
    {
      Run(managed, counter, scheduled, unscheduled)
    }

    constructor (setting: Setting)
      ensures this.setting == setting
      ensures State() == Run([], map[], [], [])
    {
      this.setting := setting;
      managed, counter, scheduled, unscheduled := [], map[], [], [];
    }

    /** Books the accepted blocks, in order. */
    method AddAccepted(blocks: seq<Block>)
      requires State() == Run([], map[], [], [])
      modifies this
      ensures State() == Run(Spans(blocks), CounterOf(blocks, setting.zone), blocks, [])
    {
      for i := 0 to |blocks|
        invariant State() == Run(Spans(blocks[..i]), CounterOf(blocks[..i], setting.zone), blocks[..i], [])
      {
        TakeNext(blocks, i);
        managed := managed + [blocks[i].span];
        counter := CountBlock(counter, blocks[i].taskId, blocks[i].span, setting.zone);
        scheduled := scheduled + [blocks[i]];
        assert Spans(blocks[..i + 1]) == Spans(blocks[..i]) + [blocks[i].span];
        assert blocks[..i + 1] == blocks[..i] + [blocks[i]];
      }
      assert blocks[..|blocks|] == blocks;
    }

    /** Reports the tasks that fail validation and returns the others. */
    method ReportInvalid(tasks: seq<Task>) returns (validTasks: seq<Task>)
      modifies this`unscheduled
      ensures unscheduled == old(unscheduled) + InvalidReports(tasks)
      ensures validTasks == Filter(tasks, TaskValid)
    {
      validTasks := [];
      for i := 0 to |tasks|
        invariant unscheduled == old(unscheduled) + InvalidReports(tasks[..i])
        invariant validTasks == Filter(tasks[..i], TaskValid)
      {
        TakeNext(tasks, i);
        if TaskInvalid(tasks[i]) {
          unscheduled := unscheduled + [Unscheduled(tasks[i].id, Max(tasks[i].duration, 0))];
        } else {
          validTasks := validTasks + [tasks[i]];
        }
      }
      assert tasks[..|tasks|] == tasks;
    }

    // the head of the loop of _place_task
    method SelectBlock(task: Task, remaining: int) returns (selected: Option<TimeInterval>)
      requires setting.Valid() && remaining > 0
      ensures selected == NextBlock(task, remaining, managed, counter, setting)
      ensures BooksBest(selected,
                        Candidates(task, remaining, Available(task, managed, setting), counter, setting))
      ensures TaskValid(task) ==>
        SlotChoice.BooksBestOffer(selected, task, remaining, Available(task, managed, setting), counter, setting)
    {
      hide BooksBest, SlotChoice.BooksBestOffer, TaskInvalid;
      NextBlockIsBest(task, remaining, managed, counter, setting);
      if TaskValid(task) {
        SlotChoice.BestOfferIsBooked(task, remaining, managed, counter, setting);
      }
      var available := AvailableForTask(task, managed, setting);
      var candidates := BuildCandidates(task, remaining, available, counter, setting);
      if candidates == [] {
        return None;
      }
      return Some(Select(candidates).block);
    }

    // _place_task
    method PlaceTask(task: Task, needed: int) returns (placed: seq<Block>, remaining: int)
      requires setting.Valid() && needed > 0
      modifies this`managed, this`counter
      ensures Place(task, needed, old(managed), old(counter), setting) ==
              Placement(placed, remaining, managed, counter)
    {
      hide Place, NextBlock, CountBlock, BooksBest, Candidates, Available, SlotChoice.BooksBestOffer;
      placed, remaining := [], needed;
      ghost var whole := Place(task, needed, managed, counter, setting);
      while remaining != 0
        invariant 0 <= remaining
        invariant whole == Prefixed(placed, Place(task, remaining, managed, counter, setting))
        decreases remaining
      {
        PlaceTurn(task, remaining, managed, counter, setting, placed);
        var selected := SelectBlock(task, remaining);
        if selected.None? {
          return;
        }
        placed := placed + [Block(task.id, selected.value)];
        managed := managed + [selected.value];
        counter := CountBlock(counter, task.id, selected.value, setting.zone);
        remaining := remaining - selected.value.DurationMinutes();
        if !task.splittable {
          return;
        }
      }
      PlaceEnds(task, managed, counter, setting, placed);
    }

    /** The main loop of schedule_tasks. */
    method PlaceAll(ordered: seq<Task>, accepted: seq<Block>)
      requires setting.Valid()
      modifies this
      ensures State() == RunAll(old(State()), ordered, accepted, setting)
    {
      hide Place, MinutesFor, SumBy;
      ghost var start := State();
      for i := 0 to |ordered|
        invariant State() == RunAll(start, ordered[..i], accepted, setting)
      {
        TakeNext(ordered, i);
        var task := ordered[i];
        var needed := Max(task.duration - Minutes(accepted, task.id), 0);
        if needed == 0 {
          continue;
        }
        var placed, remaining := PlaceTask(task, needed);
        scheduled := scheduled + placed;
        if remaining != 0 {
          unscheduled := unscheduled + [Unscheduled(task.id, remaining)];
        }
      }
      assert ordered[..|ordered|] == ordered;
    }
  }

  // schedule_tasks
  method ScheduleTasksLoop(
    tasks: seq<Task>, free: seq<TimeInterval>, prefs: Preferences, zone: Zone, accepted: seq<AcceptedBlock>)
    returns (r: Result<SchedulerResult, Error>)
    ensures r == ScheduleTasks(tasks, free, prefs, zone, accepted)
  {
    if prefs.minimumBreak < 0 {
      return Err(NegativeBreak);
    }
    if prefs.defaultMinSession <= 0 {
      return Err(NonPositiveMinimumSession);
    }
    var setting := SettingOf(free, prefs, zone);
    if exists b | b in accepted :: b.start >= b.end {
      return Err(InvalidAcceptedBlock);
    }
    var blocks := AcceptedBlocks(accepted);
    var warnings := ValidateAcceptedBlocks(blocks, tasks, setting);
    var run := new SchedulerRun(setting);
    run.AddAccepted(blocks);
    var validTasks := run.ReportInvalid(tasks);
    assert run.unscheduled == InvalidReports(tasks);
    run.PlaceAll(Sort(validTasks, TaskLe), blocks);
    return Ok(SchedulerResult(
      Sort(run.scheduled, BlockLe),
      Sort(run.unscheduled, UnscheduledLe),
      Sort(warnings, WarningLe)));
  }
}
