/**
  What the main loop of `schedule_tasks` keeps, over any number of tasks.
 */
module RunLoop {
  import opened Prelude
  import opened Sorting
  import opened Zones
  import opened Scheduler
  import opened PlaceLoop

  /** At most one of two tasks has the id. */
  function NotBoth(id: string): (Task, Task) -> bool {
    (a: Task, b: Task) => !(a.id == id && b.id == id)
  }

  /** No two tasks share the id. */
  ghost predicate SoleId(tasks: seq<Task>, id: string) {
    Pairwise(tasks, NotBoth(id))
  }

  predicate NoneHas(tasks: seq<Task>, id: string) {
    forall t | t in tasks :: t.id != id
  }

  lemma {:induction false} FilterPairwise(tasks: seq<Task>, id: string)
    requires SoleId(tasks, id)
    ensures SoleId(Filter(tasks, TaskValid), id)
  {
    if tasks != [] {
      var init, last := tasks[..|tasks| - 1], tasks[|tasks| - 1];
      FilterPairwise(init, id);
      var r := Filter(init, TaskValid);
      forall i | 0 <= i < |r| ensures NotBoth(id)(r[i], last) {
        assert r[i] in init;
        var k :| 0 <= k < |init| && init[k] == r[i];
        assert NotBoth(id)(tasks[k], tasks[|tasks| - 1]);
      }
    }
  }

  lemma OrderedSoleId(tasks: seq<Task>, id: string)
    requires SoleId(tasks, id)
    ensures SoleId(OrderedTasks(tasks), id)
    ensures forall t :: t in OrderedTasks(tasks) <==> t in tasks && TaskValid(t)
  {
    FilterPairwise(tasks, id);
    PermutationPairwise(Filter(tasks, TaskValid), Sort(Filter(tasks, TaskValid), TaskLe), NotBoth(id));
    SameElements(OrderedTasks(tasks), Filter(tasks, TaskValid));
  }

  /** The sole task with its id splits the order in two parts without the id. */
  lemma SplitAt(ordered: seq<Task>, task: Task) returns (k: nat)
    requires task in ordered && SoleId(ordered, task.id)
    ensures k < |ordered| && ordered[k] == task
    ensures NoneHas(ordered[..k], task.id) && NoneHas(ordered[k + 1..], task.id)
    ensures ordered == ordered[..k] + [task] + ordered[k + 1..]
  {
    k :| 0 <= k < |ordered| && ordered[k] == task;
    forall t | t in ordered[..k] ensures t.id != task.id {
      var i :| 0 <= i < k && ordered[i] == t;
      assert NotBoth(task.id)(ordered[i], ordered[k]);
    }
    forall t | t in ordered[k + 1..] ensures t.id != task.id {
      var i :| k < i < |ordered| && ordered[i] == t;
      assert NotBoth(task.id)(ordered[k], ordered[i]);
    }
  }

  lemma {:induction false} RunConcat(start: Run, a: seq<Task>, b: seq<Task>, accepted: seq<Block>, setting: Setting)
    requires setting.Valid()
    ensures RunAll(start, a + b, accepted, setting) ==
            RunAll(RunAll(start, a, accepted, setting), b, accepted, setting)
  {
    hide RunTask;
    if b == [] {
      assert a + b == a;
    } else {
      var c := a + b;
      assert c[..|c| - 1] == a + b[..|b| - 1];
      RunConcat(start, a, b[..|b| - 1], accepted, setting);
    }
  }

  lemma RunSplit(start: Run, ordered: seq<Task>, k: nat, accepted: seq<Block>, setting: Setting)
    requires setting.Valid() && k < |ordered|
    ensures var before := RunAll(start, ordered[..k], accepted, setting);
      RunAll(start, ordered, accepted, setting) ==
      RunAll(RunTask(before, ordered[k], accepted, setting), ordered[k + 1..], accepted, setting)
  {
    hide RunTask;
    assert ordered == ordered[..k + 1] + ordered[k + 1..];
    RunConcat(start, ordered[..k + 1], ordered[k + 1..], accepted, setting);
    assert ordered[..k + 1][..k] == ordered[..k];
  }

  // ----- the shape of a state -----

  /** The booked intervals are those of the scheduled blocks, and the counter counts their sessions. */
  ghost predicate Consistent(run: Run, zone: Zone) {
    && run.managed == Spans(run.scheduled)
    && forall id, day :: Count(run.counter, id, day) == SessionsOn(run.scheduled, id, day, zone)
  }

  lemma {:induction false} CounterCounts(blocks: seq<Block>, zone: Zone, id: string, day: int)
    ensures Count(CounterOf(blocks, zone), id, day) == SessionsOn(blocks, id, day, zone)
  {
    hide CountBlock, Count, OnDay;
    if blocks == [] {
      EmptyCounter(id, day);
    } else {
      var init, last := blocks[..|blocks| - 1], blocks[|blocks| - 1];
      CounterCounts(init, zone, id, day);
      CountBlockAdds(CounterOf(init, zone), last, zone, id, day);
    }
  }

  lemma EmptyCounter(id: string, day: int)
    ensures Count(map[], id, day) == 0
  {
  }

  lemma StartConsistent(tasks: seq<Task>, accepted: seq<Block>, setting: Setting)
    ensures Consistent(Start(tasks, accepted, setting), setting.zone)
  {
    forall id, day ensures
      Count(CounterOf(accepted, setting.zone), id, day) == SessionsOn(accepted, id, day, setting.zone)
    {
      CounterCounts(accepted, setting.zone, id, day);
    }
  }

  lemma {:induction false} RunTaskConsistent(run: Run, task: Task, accepted: seq<Block>, setting: Setting)
    requires setting.Valid() && Consistent(run, setting.zone)
    ensures Consistent(RunTask(run, task, accepted, setting), setting.zone)
    ensures run.scheduled <= RunTask(run, task, accepted, setting).scheduled
  {
    hide Place, Count, OnDay, Remaining;
    var remaining := Remaining(task, accepted);
    RemainingNonNegative(task, accepted);
    if remaining != 0 {
      var p := Place(task, remaining, run.managed, run.counter, setting);
      PlaceShape(task, remaining, run.managed, run.counter, setting);
      SpansConcat(run.scheduled, p.blocks);
      forall id, day ensures
        Count(p.counter, id, day) == SessionsOn(run.scheduled + p.blocks, id, day, setting.zone)
      {
        PlaceCounts(task, remaining, run.managed, run.counter, setting, id, day);
        SumByConcat(run.scheduled, p.blocks, OnDay(id, day, setting.zone));
      }
    }
  }

  lemma RemainingNonNegative(task: Task, accepted: seq<Block>)
    ensures 0 <= Remaining(task, accepted)
  {
  }

  lemma {:induction false} RunConsistent(
    start: Run, ordered: seq<Task>, accepted: seq<Block>, setting: Setting)
    requires setting.Valid() && Consistent(start, setting.zone)
    ensures Consistent(RunAll(start, ordered, accepted, setting), setting.zone)
    ensures start.scheduled <= RunAll(start, ordered, accepted, setting).scheduled
  {
    hide RunTask, Consistent;
    if ordered != [] {
      RunConsistent(start, ordered[..|ordered| - 1], accepted, setting);
      RunTaskConsistent(RunAll(start, ordered[..|ordered| - 1], accepted, setting), ordered[|ordered| - 1],
                        accepted, setting);
    }
  }

  // ----- soundness -----

  /** From position n on, each block is sound for one of the tasks and keeps the break from all before it. */
  ghost predicate SoundFrom(run: Run, n: nat, tasks: seq<Task>, setting: Setting) {
    && ApartFrom(run.managed, n, setting.Break())
    && forall i :: n <= i < |run.scheduled| ==>
         exists t | t in tasks :: TaskValid(t) && SoundBlock(t, run.scheduled[i], setting)
  }

  lemma {:induction false} RunTaskSound(
    run: Run, n: nat, task: Task, tasks: seq<Task>, accepted: seq<Block>, setting: Setting)
    requires setting.Valid() && TaskValid(task) && task in tasks
    requires n <= |run.managed| == |run.scheduled| && SoundFrom(run, n, tasks, setting)
    ensures SoundFrom(RunTask(run, task, accepted, setting), n, tasks, setting)
  {
    hide Place, Remaining, SoundBlock;
    var remaining := Remaining(task, accepted);
    RemainingNonNegative(task, accepted);
    if remaining != 0 {
      var p := Place(task, remaining, run.managed, run.counter, setting);
      PlaceSeparates(task, remaining, run.managed, run.counter, setting);
      var next := RunTask(run, task, accepted, setting);
      assert forall i | 0 <= i < |run.managed| :: p.managed[i] == run.managed[i];
      forall i | n <= i < |next.scheduled|
        ensures exists t | t in tasks :: TaskValid(t) && SoundBlock(t, next.scheduled[i], setting)
      {
        if i < |run.scheduled| {
          assert next.scheduled[i] == run.scheduled[i];
        } else {
          assert next.scheduled[i] in p.blocks;
        }
      }
    }
  }

  lemma {:induction false} RunSound(
    start: Run, n: nat, ordered: seq<Task>, tasks: seq<Task>, accepted: seq<Block>, setting: Setting)
    requires setting.Valid() && Consistent(start, setting.zone)
    requires forall t | t in ordered :: t in tasks && TaskValid(t)
    requires n <= |start.scheduled| && SoundFrom(start, n, tasks, setting)
    ensures SoundFrom(RunAll(start, ordered, accepted, setting), n, tasks, setting)
  {
    hide RunTask, SoundFrom;
    if ordered != [] {
      var init := ordered[..|ordered| - 1];
      assert forall t | t in init :: t in ordered;
      RunSound(start, n, init, tasks, accepted, setting);
      RunConsistent(start, init, accepted, setting);
      RunTaskSound(RunAll(start, init, accepted, setting), n, ordered[|ordered| - 1], tasks, accepted, setting);
    }
  }

  // ----- tasks leave each other's blocks alone -----

  /** The reports of a task. */
  function ForTask(id: string): Unscheduled -> bool {
    (u: Unscheduled) => u.taskId == id
  }

  function Reports(unscheduled: seq<Unscheduled>, id: string): seq<Unscheduled> {
    Filter(unscheduled, ForTask(id))
  }

  /** Counts the blocks of a task. */
  function OfTask(id: string): Block -> int {
    (b: Block) => Indicator(b.taskId == id)
  }

  function BlockCount(blocks: seq<Block>, id: string): int {
    SumBy(blocks, OfTask(id))
  }

  lemma {:induction false} ForeignBlocks(blocks: seq<Block>, id: string)
    requires forall b | b in blocks :: b.taskId != id
    ensures Minutes(blocks, id) == 0 && BlockCount(blocks, id) == 0
  {
    if blocks != [] {
      assert forall b | b in blocks[..|blocks| - 1] :: b in blocks;
      ForeignBlocks(blocks[..|blocks| - 1], id);
    }
  }

  lemma {:induction false} ForeignSessions(blocks: seq<Block>, id: string, day: int, zone: Zone)
    requires forall b | b in blocks :: b.taskId != id
    ensures SessionsOn(blocks, id, day, zone) == 0
  {
    if blocks != [] {
      assert forall b | b in blocks[..|blocks| - 1] :: b in blocks;
      ForeignSessions(blocks[..|blocks| - 1], id, day, zone);
    }
  }

  /** What the rest of the run may not change for a task. */
  ghost predicate SameFor(a: Run, b: Run, id: string) {
    && Minutes(a.scheduled, id) == Minutes(b.scheduled, id)
    && BlockCount(a.scheduled, id) == BlockCount(b.scheduled, id)
    && Reports(a.unscheduled, id) == Reports(b.unscheduled, id)
    && (forall day :: Count(a.counter, id, day) == Count(b.counter, id, day))
    && a.managed <= b.managed
  }

  lemma OtherTaskLeavesAlone(run: Run, task: Task, id: string, accepted: seq<Block>, setting: Setting)
    requires setting.Valid() && task.id != id
    ensures SameFor(run, RunTask(run, task, accepted, setting), id)
  {
    hide Place, Count, OnDay, MinutesFor, OfTask, Remaining, SumBy, Reports, Spans;
    var remaining := Remaining(task, accepted);
    RemainingNonNegative(task, accepted);
    if remaining == 0 {
    } else {
      var p := Place(task, remaining, run.managed, run.counter, setting);
      PlaceShape(task, remaining, run.managed, run.counter, setting);
      ForeignBlocks(p.blocks, id);
      SumByConcat(run.scheduled, p.blocks, MinutesFor(id));
      SumByConcat(run.scheduled, p.blocks, OfTask(id));
      ForeignCounts(run, task, remaining, id, setting);
      ForeignReport(run.unscheduled, Unscheduled(task.id, p.remaining), id);
    }
  }

  lemma ForeignReport(reports: seq<Unscheduled>, u: Unscheduled, id: string)
    requires u.taskId != id
    ensures Reports(reports + (if u.remaining != 0 then [u] else []), id) == Reports(reports, id)
  {
    FilterNext(reports, u, ForTask(id));
    assert reports + [] == reports && Reports(reports, id) + [] == Reports(reports, id);
  }

  lemma {:induction false} ForeignCounts(run: Run, task: Task, remaining: int, id: string, setting: Setting)
    requires setting.Valid() && task.id != id && remaining >= 0
    ensures forall day ::
      Count(Place(task, remaining, run.managed, run.counter, setting).counter, id, day) == Count(run.counter, id, day)
  {
    hide Place, Count, OnDay;
    var p := Place(task, remaining, run.managed, run.counter, setting);
    PlaceShape(task, remaining, run.managed, run.counter, setting);
    forall day ensures Count(p.counter, id, day) == Count(run.counter, id, day) {
      PlaceCounts(task, remaining, run.managed, run.counter, setting, id, day);
      ForeignSessions(p.blocks, id, day, setting.zone);
    }
  }

  lemma FilterOne<T(!new)>(x: T, p: T -> bool)
    ensures Filter([x], p) == if p(x) then [x] else []
  {
    assert [x][..0] == [];
    assert Filter([x], p) == Filter([x][..0], p) + (if p(x) then [x] else []);
  }

  lemma {:induction false} OthersLeaveAlone(
    start: Run, ordered: seq<Task>, id: string, accepted: seq<Block>, setting: Setting)
    requires setting.Valid() && NoneHas(ordered, id)
    ensures SameFor(start, RunAll(start, ordered, accepted, setting), id)
  {
    hide RunTask, Count, Minutes, BlockCount, Reports;
    if ordered != [] {
      var init, last := ordered[..|ordered| - 1], ordered[|ordered| - 1];
      assert forall t | t in init :: t in ordered;
      OthersLeaveAlone(start, init, id, accepted, setting);
      OtherTaskLeavesAlone(RunAll(start, init, accepted, setting), last, id, accepted, setting);
    }
  }

  /** The whole run of a task with an id of its own, as one call of `_place_task`. */
  lemma OwnPlacement(tasks: seq<Task>, task: Task, accepted: seq<Block>, setting: Setting)
    returns (before: Run, after: Run)
    requires setting.Valid() && task in tasks && TaskValid(task) && SoleId(tasks, task.id)
    ensures SameFor(Start(tasks, accepted, setting), before, task.id)
    ensures after == RunTask(before, task, accepted, setting)
    ensures SameFor(after, FinalRun(tasks, accepted, setting), task.id)
    ensures Consistent(before, setting.zone)
  {
    hide RunTask, SameFor, Consistent, Start;
    var start := Start(tasks, accepted, setting);
    var ordered := OrderedTasks(tasks);
    OrderedSoleId(tasks, task.id);
    var k := SplitAt(ordered, task);
    RunSplit(start, ordered, k, accepted, setting);
    before := RunAll(start, ordered[..k], accepted, setting);
    after := RunTask(before, task, accepted, setting);
    OthersLeaveAlone(start, ordered[..k], task.id, accepted, setting);
    OthersLeaveAlone(after, ordered[k + 1..], task.id, accepted, setting);
    StartConsistent(tasks, accepted, setting);
    RunConsistent(start, ordered[..k], accepted, setting);
  }

  /** A valid task with an id of its own is not among the invalid ones. */
  lemma {:induction false} NoInvalidReport(tasks: seq<Task>, id: string)
    requires forall t | t in tasks && TaskInvalid(t) :: t.id != id
    ensures Reports(InvalidReports(tasks), id) == []
  {
    if tasks != [] {
      var init, last := tasks[..|tasks| - 1], tasks[|tasks| - 1];
      assert forall t | t in init :: t in tasks;
      NoInvalidReport(init, id);
      if TaskInvalid(last) {
        var report := Unscheduled(last.id, Max(last.duration, 0));
        assert last in tasks;
        FilterConcat(InvalidReports(init), [report], ForTask(id));
        FilterOne(report, ForTask(id));
      } else {
        assert InvalidReports(tasks) == InvalidReports(init) + [] == InvalidReports(init);
      }
    }
  }

  lemma SoleIsValid(tasks: seq<Task>, task: Task)
    requires task in tasks && TaskValid(task) && SoleId(tasks, task.id)
    ensures forall t | t in tasks && TaskInvalid(t) :: t.id != task.id
  {
    forall t | t in tasks && TaskInvalid(t) ensures t.id != task.id {
      var i :| 0 <= i < |tasks| && tasks[i] == task;
      var j :| 0 <= j < |tasks| && tasks[j] == t;
      assert i < j ==> NotBoth(task.id)(tasks[i], tasks[j]);
      assert j < i ==> NotBoth(task.id)(tasks[j], tasks[i]);
    }
  }
}
