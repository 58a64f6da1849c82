/**
  Where the day cap breaks: in a made-up zone whose clock jumps at ten in the morning to ten in the
  evening, the afternoon window of that day starts at midnight of the next one, so a session
  counted against one day is booked on the other, beyond its cap.
 */
module DayCapExample {
  import opened Prelude
  import opened Sorting
  import opened Intervals
  import opened Zones
  import opened Scheduler
  import opened RunLoop
  import opened SchedulerTheorems

  // ----- one task, one free interval, one accepted block out of the way -----

  lemma SortSole<T(!new)>(x: T, le: (T, T) -> bool)
    ensures Sort([x], le) == [x]
  {
    var none: seq<T> := [];
    assert none + [x] == [x];
    SortNext(none, x, le);
  }

  lemma AvailableAlone(task: Task, f: TimeInterval, m: TimeInterval, setting: Setting)
    requires setting.Valid() && setting.free == [f] && Clip(task, f, setting) == Some(f)
    requires f.end <= Padded(m, setting).start
    ensures Available(task, [m], setting) == [f]
  {
    hide Clip;
    var none: seq<TimeInterval> := [];
    var r := Padded(m, setting);
    assert [f][..0] == [] && [r][..0] == [];
    assert Constrained(task, [f], setting) == Constrained(task, [f][..0], setting) + [f] == [f];
    assert Reservations([m], setting) == [r];
    SortSole(r, SpanLe);
    assert SubtractInOrder([f], [r][..0]) == [f];
    assert CutAll([f][..0], r) == [];
    assert CutAll([f], r) == CutAll([f][..0], r) + Cut(f, r) == [f];
    assert SubtractInOrder([f], [r]) == CutAll(SubtractInOrder([f], [r][..0]), r);
  }

  lemma PlacedAlone(
    task: Task, remaining: int, f: TimeInterval, m: TimeInterval, counter: SessionCounter, setting: Setting,
    c: Candidate)
    requires setting.Valid() && remaining > 0 && !task.splittable
    requires Available(task, [m], setting) == [f] && CandidateIn(task, remaining, f, counter, setting) == Some(c)
    requires c.block.DurationMinutes() == remaining
    ensures Place(task, remaining, [m], counter, setting).blocks == [Block(task.id, c.block)]
  {
    hide Available, CandidateIn;
    assert [f][..0] == [];
    assert Candidates(task, remaining, [f][..0], counter, setting) == [];
    assert Candidates(task, remaining, [f], counter, setting) == [c];
    assert Select([c]) == c;
    assert NextBlock(task, remaining, [m], counter, setting) == Some(c.block);
  }

  lemma AcceptedAlone(a: AcceptedBlock)
    requires AcceptedValid([a]) && a.start < a.end
    ensures AcceptedBlocks([a]) == [OneAsBlock(a)]
  {
    SortSole(a, AcceptedLe);
  }

  lemma StartAlone(task: Task, own: Block, setting: Setting)
    requires TaskValid(task)
    ensures var start := Start([task], [own], setting);
      && start.managed == [own.span]
      && start.counter == CountUp(map[], own.taskId, LocalDay(setting.zone, own.span.start))
      && start.scheduled == [own]
  {
    hide LocalDay;
    assert [own][..0] == [];
    assert CounterOf([own][..0], setting.zone) == map[];
  }

  lemma FinalAlone(task: Task, own: Block, setting: Setting)
    requires setting.Valid() && TaskValid(task)
    ensures FinalRun([task], [own], setting) == RunTask(Start([task], [own], setting), task, [own], setting)
  {
    hide RunTask, Start, TaskValid;
    FilterOne(task, TaskValid);
    SortSole(task, TaskLe);
    assert [task][..0] == [];
    var start := Start([task], [own], setting);
    assert RunAll(start, [task][..0], [own], setting) == start;
  }

  /** The blocks for one valid task with one accepted block: that block and what is placed beside it. */
  lemma ScheduledAlone(task: Task, f: TimeInterval, a: AcceptedBlock, prefs: Preferences, zone: Zone)
    requires Accepts(prefs, [a]) && TaskValid(task) && a.start < a.end && a.taskId == task.id
    requires task.duration > Span(a.start, a.end).DurationMinutes()
    ensures var own := OneAsBlock(a);
      var counter := CountUp(map[], a.taskId, LocalDay(zone, a.start));
      var minutes := task.duration - own.span.DurationMinutes();
      var placed := Place(task, minutes, [own.span], counter, Setting([f], prefs, zone)).blocks;
      Scheduled([task], [f], prefs, zone, [a]).blocks == Sort([own] + placed, BlockLe)
  {
    hide Place, LocalDay, AcceptedWarnings, TaskValid, FinalRun, Start, AcceptedBlocks, Sort;
    var setting := Setting([f], prefs, zone);
    var own := OneAsBlock(a);
    SortSole(f, SpanLe);
    AcceptedAlone(a);
    SumOne(own, MinutesFor(task.id));
    StartAlone(task, own, setting);
    FinalAlone(task, own, setting);
  }

  // ----- the zone -----

  /** On day 0 the clock jumps from ten in the morning to ten in the evening. */
  const JUMP := OneTransition(10 * HOUR, 0, 12 * HOUR)

  const AFTERNOON := Task("t", 120, Low, None, None, true, Afternoon, false, 60, 1)

  const PREFS := Preferences(AnyTime, 0, None, 15)

  /** From nine in the morning of day 0 to three in the morning of day 1, by the clock. */
  const FREE: TimeInterval := Span(9 * HOUR, 15 * HOUR)

  /** One hour accepted on the evening of day 1. */
  const ACCEPTED := AcceptedBlock("t", 30 * HOUR, 31 * HOUR)

  const OWN := Block("t", Span(30 * HOUR, 31 * HOUR))

  const ADDED := Block("t", Span(12 * HOUR, 13 * HOUR))

  lemma JumpDays()
    ensures LocalDay(JUMP, 9 * HOUR) == 0
    ensures LocalDay(JUMP, 12 * HOUR) == LocalDay(JUMP, 30 * HOUR) == 1
    ensures AtWall(JUMP, 0, 12 * HOUR) == 12 * HOUR && AtWall(JUMP, 0, 17 * HOUR) == 17 * HOUR
  {
    FirstReading(10 * HOUR, 0, 12 * HOUR, 12 * HOUR);
    FirstReading(10 * HOUR, 0, 12 * HOUR, 17 * HOUR);
  }

  lemma AfternoonCandidate(counter: SessionCounter)
    requires Count(counter, "t", 0) == 0
    ensures var c := CandidateIn(AFTERNOON, 60, FREE, counter, Setting([FREE], PREFS, JUMP));
      c.Some? && c.value.block == ADDED.span
  {
    hide LocalDay, AtWall, Count;
    JumpDays();
    assert FREE.DurationMinutes() == 360;
    assert PreferredPlace(FREE, 60, Afternoon, JUMP) == (12 * HOUR, 1);
  }

  /** Two sessions on day 1, although the cap is one and one was accepted. */
  lemma DayCapCanBreak()
    ensures !KeepsDay(JUMP)
    ensures Accepts(PREFS, [ACCEPTED]) && TaskValid(AFTERNOON) && SoleId([AFTERNOON], "t")
    ensures SessionsOn(Scheduled([AFTERNOON], [FREE], PREFS, JUMP, [ACCEPTED]).blocks, "t", 1, JUMP) == 2
    ensures SessionsOn(AcceptedBlocks([ACCEPTED]), "t", 1, JUMP) == 1 == AFTERNOON.maxPerDay
  {
    hide Scheduled, AcceptedBlocks, LocalDay, AtWall, Place, CandidateIn, TaskInvalid, SumBy, KeepsDay, Available,
         Sort;
    JumpDays();
    JumpLosesDay();
    AfternoonValid();
    AcceptedAlone(ACCEPTED);
    var setting := Setting([FREE], PREFS, JUMP);
    var counter := CountUp(map[], "t", 1);
    ScheduledAlone(AFTERNOON, FREE, ACCEPTED, PREFS, JUMP);
    AvailableAlone(AFTERNOON, FREE, OWN.span, setting);
    AfternoonCandidate(counter);
    var c := CandidateIn(AFTERNOON, 60, FREE, counter, setting).value;
    PlacedAlone(AFTERNOON, 60, FREE, OWN.span, counter, setting, c);
    SumBySort([OWN] + [ADDED], BlockLe, OnDay("t", 1, JUMP));
    SumByConcat([OWN], [ADDED], OnDay("t", 1, JUMP));
    SumOne(OWN, OnDay("t", 1, JUMP));
    SumOne(ADDED, OnDay("t", 1, JUMP));
  }

  lemma JumpLosesDay()
    ensures !KeepsDay(JUMP)
  {
    hide LocalDay, AtWall;
    JumpDays();
    assert PreferredWindow(12 * HOUR, 17 * HOUR) && Ahead(JUMP, 9 * HOUR, 12 * HOUR, 17 * HOUR);
  }

  lemma AfternoonValid()
    ensures TaskValid(AFTERNOON)
  {
  }
}
