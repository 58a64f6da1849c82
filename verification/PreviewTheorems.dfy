/**
  From preview to plan: what the schedule of a preview promises, and why it passes the
  validation that guards the creation of a plan.
 */
module PreviewTheorems {
  import opened Prelude
  import opened Sorting
  import opened Intervals
  import opened Zones
  import opened Preview
  import Availability
  import Plans
  import Revalidation
  import Scheduler
  import SchedulerInvariance
  import SchedulerTheorems

  // ----- free time and its blocks -----

  /** A free interval lies in the planning window and clear of the busy time. */
  lemma FreeIsClear(
    free: seq<TimeInterval>, planning: TimeInterval, hours: Availability.WorkingHours,
    busy: seq<TimeInterval>, zone: Zone, f: TimeInterval)
    requires Availability.AllWeekdays(hours) && Availability.IsFreeTime(free, planning, hours, busy, zone)
    requires f in free
    ensures Within(f, planning)
    ensures forall x | x in busy :: !Overlaps(f, x)
  {
    hide Availability.Working, Availability.AllWeekdays, Canonical;
    var i :| 0 <= i < |free| && free[i] == f;
    assert Holds(free[i], f.start) && Holds(free[i], f.end - 1);
    assert Covers(free, f.start) && Covers(free, f.end - 1);
    forall x | x in busy ensures !Overlaps(f, x) {
      CommonInstant(free, busy, f, x);
    }
  }

  lemma CommonInstant(a: seq<TimeInterval>, b: seq<TimeInterval>, f: TimeInterval, x: TimeInterval)
    requires f in a && x in b
    ensures Overlaps(f, x) ==> Covers(a, Max(f.start, x.start)) && Covers(b, Max(f.start, x.start))
  {
    if Overlaps(f, x) {
      var t := Max(f.start, x.start);
      var i :| 0 <= i < |a| && a[i] == f;
      var j :| 0 <= j < |b| && b[j] == x;
      assert Holds(a[i], t) && Holds(b[j], t);
    }
  }

  /** A block of a preview: whole minutes inside the planning window, clear of the busy time. */
  predicate ClearBlock(span: TimeInterval, planning: TimeInterval, busy: seq<TimeInterval>) {
    && span.end == span.start + span.DurationMinutes() * MINUTE
    && Within(span, planning)
    && forall x | x in busy :: !Overlaps(span, x)
  }

  lemma WithinIsClear(inner: TimeInterval, outer: TimeInterval, busy: seq<TimeInterval>)
    requires Within(inner, outer) && forall x | x in busy :: !Overlaps(outer, x)
    ensures forall x | x in busy :: !Overlaps(inner, x)
  {
  }

  /** For any tasks, every block of a preview is clear, and belongs to one of the tasks. */
  lemma {:induction false} PreviewBlocksAreClear(
    p: SchedulePreview, planning: TimeInterval, busy: seq<TimeInterval>,
    tasks: seq<Scheduler.Task>, prefs: UserPreferences)
    requires IsPreview(p, planning, busy, tasks, prefs)
    ensures forall b | b in p.result.blocks :: ClearBlock(b.span, planning, busy)
    ensures forall b | b in p.result.blocks :: exists t | t in tasks :: Scheduler.TaskValid(t) && b.taskId == t.id
  {
    hide SchedulerTheorems.NewBlocks, Availability.IsFreeTime, Scheduler.FinalRun, ClearBlock;
    SchedulerTheorems.PlacementIsSound(tasks, p.free, prefs.scheduling, prefs.zone, []);
    var placed := SchedulerTheorems.NewBlocks(tasks, p.free, prefs.scheduling, prefs.zone, []);
    AllBlocksNew(p.result.blocks, placed);
    forall b | b in p.result.blocks
      ensures ClearBlock(b.span, planning, busy)
      ensures exists t | t in tasks :: Scheduler.TaskValid(t) && b.taskId == t.id
    {
      var t :| t in tasks && Scheduler.TaskValid(t)
        && SchedulerTheorems.SoundForCaller(t, b, p.free, prefs.scheduling, prefs.zone);
      SoundIsClear(p.free, planning, busy, prefs, t, b);
    }
  }

  lemma AllBlocksNew(blocks: seq<Scheduler.Block>, placed: seq<Scheduler.Block>)
    requires multiset(blocks) == multiset(Scheduler.AsBlocks([])) + multiset(placed)
    ensures multiset(blocks) == multiset(placed)
    ensures forall b :: b in blocks <==> b in placed
  {
    assert Scheduler.AsBlocks([]) == [];
    SameElements(blocks, placed);
  }

  lemma SoundIsClear(
    free: seq<TimeInterval>, planning: TimeInterval, busy: seq<TimeInterval>, prefs: UserPreferences,
    t: Scheduler.Task, b: Scheduler.Block)
    requires Availability.AllWeekdays(prefs.hours)
    requires Availability.IsFreeTime(free, planning, prefs.hours, busy, prefs.zone)
    requires SchedulerTheorems.SoundForCaller(t, b, free, prefs.scheduling, prefs.zone)
    ensures ClearBlock(b.span, planning, busy) && b.taskId == t.id
  {
    hide Availability.IsFreeTime;
    var f :| f in free && Within(b.span, f);
    FreeIsClear(free, planning, prefs.hours, busy, prefs.zone, f);
    WithinIsClear(b.span, f, busy);
  }

  // ----- reservations -----

  lemma SpansListed(rows: seq<Revalidation.StoredSession>, row: Revalidation.StoredSession)
    requires row in rows
    ensures row.span in RowSpans(rows)
  {
    var i :| 0 <= i < |rows| && rows[i] == row;
    assert RowSpans(rows)[i] == row.span;
  }

  /**
    A preview built with reservations overlaps no busy interval passed in, and no session at
    all of a plan of the user that reserves time: the query's window loses none that matters.
   */
  lemma {:induction false} PreviewAvoidsReservations(
    p: SchedulePreview, planning: TimeInterval, busy: seq<TimeInterval>, rows: seq<Revalidation.StoredSession>,
    user: string, tasks: seq<Scheduler.Task>, prefs: UserPreferences)
    requires IsPreview(p, planning, busy + RowSpans(ReservedRows(rows, user, planning)), tasks, prefs)
    ensures forall b, x | b in p.result.blocks && x in busy :: !Overlaps(b.span, x)
    ensures forall b, row | b in p.result.blocks && row in rows && row.user == user && Plans.Reserves(row.status) ::
              !Overlaps(b.span, row.span)
  {
    hide IsPreview;
    var reserved := ReservedRows(rows, user, planning);
    var all := busy + RowSpans(reserved);
    PreviewBlocksAreClear(p, planning, all, tasks, prefs);
    forall b, x | b in p.result.blocks && x in busy ensures !Overlaps(b.span, x) {
      assert x in all;
    }
    forall b, row | b in p.result.blocks && row in rows && row.user == user && Plans.Reserves(row.status)
      ensures !Overlaps(b.span, row.span)
    {
      assert Within(b.span, planning);
      ReservedInWindow(rows, user, planning, row);
      if row in reserved {
        SpansListed(reserved, row);
        assert row.span in all;
      }
    }
  }

  lemma ReservedInWindow(
    rows: seq<Revalidation.StoredSession>, user: string, planning: TimeInterval, row: Revalidation.StoredSession)
    requires row in rows && row.user == user && Plans.Reserves(row.status)
    ensures Overlaps(row.span, planning) ==> row in ReservedRows(rows, user, planning)
  {
    var selected := Revalidation.Selected(user, planning, None);
    assert selected(row) ==> row in Filter(rows, selected);
    SameElements(ReservedRows(rows, user, planning), Filter(rows, selected));
  }

  // ----- from preview to plan -----

  function ResponseBlock(b: Scheduler.Block): PreviewBlock {
    PreviewBlock(b.span.start, b.span.end, true)
  }

  /** The preview as the response that is sent out and comes back. */
  function Response(p: SchedulePreview): PreviewResponse {
    PreviewResponse(
      SCHEDULER_VERSION, p.planning,
      seq(|p.result.blocks|, i requires 0 <= i < |p.result.blocks| => ResponseBlock(p.result.blocks[i])))
  }

  predicate Separate(a: Scheduler.Block, b: Scheduler.Block) {
    Apart(a.span, b.span, 0)
  }

  lemma {:induction false} ResponseMinutes(blocks: seq<Scheduler.Block>, response: seq<PreviewBlock>, id: string)
    requires |response| == |blocks|
    requires forall i :: 0 <= i < |blocks| ==> response[i] == ResponseBlock(blocks[i]) && blocks[i].taskId == id
    ensures SumBy(response, BlockMinutes) == Scheduler.Minutes(blocks, id)
  {
    if blocks != [] {
      ResponseMinutes(blocks[..|blocks| - 1], response[..|blocks| - 1], id);
    }
  }

  lemma ResponseIsGood(p: SchedulePreview, busy: seq<TimeInterval>)
    requires forall b | b in p.result.blocks :: ClearBlock(b.span, p.planning, busy)
    requires Pairwise(p.result.blocks, Separate)
    ensures forall b | b in Response(p).blocks :: GoodBlock(b, p.planning)
    ensures Pairwise(Response(p).blocks, Disjoint)
  {
    var blocks := p.result.blocks;
    forall i | 0 <= i < |blocks| ensures GoodBlock(ResponseBlock(blocks[i]), p.planning) {
      assert blocks[i] in blocks;
      assert (blocks[i].span.end - blocks[i].span.start) % MINUTE == 0;
    }
    forall i, j | 0 <= i < j < |blocks| ensures Disjoint(ResponseBlock(blocks[i]), ResponseBlock(blocks[j])) {
      assert Separate(blocks[i], blocks[j]);
    }
  }

  /** The blocks of a preview do not overlap one another. */
  lemma {:induction false} PreviewBlocksSeparate(
    p: SchedulePreview, planning: TimeInterval, busy: seq<TimeInterval>,
    tasks: seq<Scheduler.Task>, prefs: UserPreferences)
    requires IsPreview(p, planning, busy, tasks, prefs)
    ensures prefs.scheduling.minimumBreak >= 0
    ensures Pairwise(p.result.blocks, Separate)
  {
    hide SchedulerTheorems.NewBlocks, Availability.IsFreeTime, Scheduler.FinalRun;
    SchedulerTheorems.PlacementIsSound(tasks, p.free, prefs.scheduling, prefs.zone, []);
    var placed := SchedulerTheorems.NewBlocks(tasks, p.free, prefs.scheduling, prefs.zone, []);
    AllBlocksNew(p.result.blocks, placed);
    forall i, j | 0 <= i < j < |placed| ensures Separate(placed[i], placed[j]) {
      assert SchedulerTheorems.BlocksApart(placed[i], placed[j], prefs.scheduling.minimumBreak * MINUTE);
    }
    PermutationPairwise(placed, p.result.blocks, Separate);
  }

  /**
    End to end. For one valid task, a preview with at least one block passes
    `_validate_preview` for the same window, scheduler version and duration; what is stored
    is the scheduled blocks, each with its minutes.
   */
  lemma {:induction false} PreviewPassesValidation(
    p: SchedulePreview, planning: TimeInterval, busy: seq<TimeInterval>, task: Scheduler.Task, prefs: UserPreferences)
    requires IsPreview(p, planning, busy, [task], prefs)
    requires Scheduler.TaskValid(task) && p.result.blocks != []
    ensures Validated(Some(task.duration), Response(p), Context(SCHEDULER_VERSION, planning)) ==
            Result.Ok(NormalizeAll(Sort(Response(p).blocks, PreviewBlockLe)))
  {
    hide Scheduler.Scheduled, Availability.IsFreeTime, ClearBlock, GoodBlock, Pairwise, SumBy, NormalizeAll,
         Validated, Sort;
    var context := Context(SCHEDULER_VERSION, planning);
    PreviewBlocksAreClear(p, planning, busy, [task], prefs);
    PreviewBlocksSeparate(p, planning, busy, [task], prefs);
    ResponseIsGood(p, busy);
    OneTaskMinutes(p, task, prefs);
    ResponseMinutes(p.result.blocks, Response(p).blocks, task.id);
    assert Acceptable(Some(task.duration), Response(p), context);
    ValidatedIff(Some(task.duration), Response(p), context);
  }

  lemma {:induction false} OneTaskMinutes(p: SchedulePreview, task: Scheduler.Task, prefs: UserPreferences)
    requires Scheduler.TaskValid(task)
    requires Scheduler.Accepts(prefs.scheduling, [])
    requires p.result == Scheduler.Scheduled([task], p.free, prefs.scheduling, prefs.zone, [])
    ensures Scheduler.Minutes(p.result.blocks, task.id) <= task.duration
  {
    hide Scheduler.Scheduled;
    SchedulerTheorems.MinutesAreConserved([task], p.free, prefs.scheduling, prefs.zone, [], task);
    NoAcceptedMinutes(task.id);
  }

  lemma NoAcceptedMinutes(id: string)
    ensures SchedulerTheorems.AcceptedMinutes([], id) == 0
  {
    SchedulerTheorems.AcceptedPermutation([]);
    assert Scheduler.AcceptedBlocks([]) == [];
  }

  // ----- the stored plan -----

  /** What validation stores is what the creation of a plan asks for: sessions of positive minutes, at least one. */
  lemma ValidatedIsStorable(duration: Option<int>, preview: PreviewResponse, context: Context)
    requires Validated(duration, preview, context).Ok?
    ensures var minutes := MinutesOf(Validated(duration, preview, context).value);
      minutes != [] && forall m | m in minutes :: m > 0
  {
    hide Validated, SumBy, Pairwise;
    ValidatedIff(duration, preview, context);
    var sorted := Sort(preview.blocks, PreviewBlockLe);
    SameElements(sorted, preview.blocks);
    var minutes := MinutesOf(NormalizeAll(sorted));
    forall m | m in minutes ensures m > 0 {
      var i :| 0 <= i < |minutes| && minutes[i] == m;
      assert sorted[i] in preview.blocks;
      assert GoodBlock(sorted[i], context.window);
    }
  }

  // ----- the tasks that are loaded -----

  /** The window part of the query in `_load_preview_tasks`. */
  function Reachable(planning: TimeInterval): Scheduler.Task -> bool {
    (t: Scheduler.Task) =>
      && (t.earliest.Some? ==> t.earliest.value < planning.end)
      && (t.deadline.Some? ==> t.deadline.value > planning.start)
  }

  lemma {:induction false} NoRoomOutsideWindow(
    task: Scheduler.Task, free: seq<TimeInterval>, planning: TimeInterval, setting: Scheduler.Setting)
    requires !Reachable(planning)(task)
    requires forall f | f in free :: Within(f, planning)
    ensures Scheduler.Constrained(task, free, setting) == []
  {
    if free != [] {
      assert free[|free| - 1] in free;
      assert forall f | f in free[..|free| - 1] :: f in free;
      NoRoomOutsideWindow(task, free[..|free| - 1], planning, setting);
    }
  }

  lemma {:induction false} NothingMinusAnything(rs: seq<TimeInterval>)
    ensures Scheduler.SubtractInOrder([], rs) == []
  {
    if rs != [] {
      NothingMinusAnything(rs[..|rs| - 1]);
    }
  }

  /** A turn for a task that cannot reach the window books nothing. */
  lemma UnreachableTurn(
    run: Scheduler.Run, task: Scheduler.Task, accepted: seq<Scheduler.Block>, planning: TimeInterval,
    setting: Scheduler.Setting)
    requires setting.Valid() && !Reachable(planning)(task)
    requires forall f | f in setting.free :: Within(f, planning)
    ensures SchedulerInvariance.SameButReports(Scheduler.RunTask(run, task, accepted, setting), run)
  {
    hide Scheduler.Minutes, Scheduler.Reservations;
    var remaining := Scheduler.Remaining(task, accepted);
    if remaining != 0 {
      NoRoomOutsideWindow(task, setting.free, planning, setting);
      NothingMinusAnything(Sort(Scheduler.Reservations(run.managed, setting), SpanLe));
      assert Scheduler.Available(task, run.managed, setting) == [];
      assert Scheduler.NextBlock(task, remaining, run.managed, run.counter, setting) == None;
      assert run.scheduled + [] == run.scheduled;
    }
  }

  lemma {:induction false} RunSkipsUnreachable(
    start: Scheduler.Run, other: Scheduler.Run, ordered: seq<Scheduler.Task>, accepted: seq<Scheduler.Block>,
    planning: TimeInterval, setting: Scheduler.Setting)
    requires setting.Valid() && SchedulerInvariance.SameButReports(start, other)
    requires forall f | f in setting.free :: Within(f, planning)
    ensures SchedulerInvariance.SameButReports(
              Scheduler.RunAll(start, ordered, accepted, setting),
              Scheduler.RunAll(other, Filter(ordered, Reachable(planning)), accepted, setting))
  {
    hide Scheduler.RunTask;
    if ordered != [] {
      var init, last := ordered[..|ordered| - 1], ordered[|ordered| - 1];
      RunSkipsUnreachable(start, other, init, accepted, planning, setting);
      var kept := Filter(init, Reachable(planning));
      var mid1 := Scheduler.RunAll(start, init, accepted, setting);
      var mid2 := Scheduler.RunAll(other, kept, accepted, setting);
      if Reachable(planning)(last) {
        assert (kept + [last])[..|kept|] == kept;
        SchedulerInvariance.TurnAlike(
          mid1, mid2, last, mid1.unscheduled, mid2.unscheduled, [], accepted, setting);
      } else {
        assert kept + [] == kept;
        UnreachableTurn(mid1, last, accepted, planning, setting);
      }
    }
  }

  lemma {:induction false} FiltersCommute<T(!new)>(s: seq<T>, p: T -> bool, q: T -> bool)
    ensures Filter(Filter(s, p), q) == Filter(Filter(s, q), p)
  {
    if s != [] {
      var init, last := s[..|s| - 1], s[|s| - 1];
      FiltersCommute(init, p, q);
      FilterNext(Filter(init, p), last, q);
      FilterNext(Filter(init, q), last, p);
      assert Filter(init, p) + [] == Filter(init, p) && Filter(init, q) + [] == Filter(init, q);
    }
  }

  /** With unique ids, the order of the kept tasks is the order they had. */
  lemma OrderedKept(tasks: seq<Scheduler.Task>, p: Scheduler.Task -> bool)
    requires SchedulerInvariance.UniqueIds(tasks)
    ensures Scheduler.OrderedTasks(Filter(tasks, p)) == Filter(Scheduler.OrderedTasks(tasks), p)
  {
    var valid := Filter(tasks, Scheduler.TaskValid);
    SchedulerInvariance.TaskOrder();
    SortIsSorted(valid, Scheduler.TaskLe);
    FilterSorted(Sort(valid, Scheduler.TaskLe), p, Scheduler.TaskLe);
    FilterPermutation(Sort(valid, Scheduler.TaskLe), valid, p);
    FiltersCommute(tasks, p, Scheduler.TaskValid);
    var kept := Filter(Filter(tasks, p), Scheduler.TaskValid);
    SortIsSorted(kept, Scheduler.TaskLe);
    SchedulerInvariance.OrderDistinguishes(tasks, kept);
    SameElements(Sort(kept, Scheduler.TaskLe), kept);
    SortedUnique(Sort(kept, Scheduler.TaskLe), Filter(Sort(valid, Scheduler.TaskLe), p), Scheduler.TaskLe);
  }

  /**
    Loading only the tasks whose window reaches into the planning window changes no block:
    inside free time of that window, the others could not have been placed nor stood in the way.
   */
  lemma {:induction false} UnloadedTasksDoNotMatter(
    tasks: seq<Scheduler.Task>, free: seq<TimeInterval>, planning: TimeInterval,
    prefs: Scheduler.Preferences, zone: Zone,
    accepted: seq<Scheduler.AcceptedBlock>)
    requires SchedulerInvariance.UniqueIds(tasks)
    requires forall f | f in free :: Within(f, planning)
    requires Scheduler.Accepts(prefs, accepted)
    ensures Scheduler.Scheduled(Filter(tasks, Reachable(planning)), free, prefs, zone, accepted).blocks ==
            Scheduler.Scheduled(tasks, free, prefs, zone, accepted).blocks
  {
    hide Scheduler.AcceptedWarnings, Scheduler.OrderedTasks, Scheduler.RunAll, Scheduler.InvalidReports, Filter;
    var setting, blocks := Scheduler.SettingOf(free, prefs, zone), Scheduler.AcceptedBlocks(accepted);
    SameElements(setting.free, free);
    OrderedKept(tasks, Reachable(planning));
    RunSkipsUnreachable(
      Scheduler.Start(tasks, blocks, setting), Scheduler.Start(Filter(tasks, Reachable(planning)), blocks, setting),
      Scheduler.OrderedTasks(tasks), blocks, planning, setting);
  }
}
