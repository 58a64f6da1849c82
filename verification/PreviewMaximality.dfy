/**
  Maximality for whole previews: free time the calculator makes never runs past midnight, so
  the schedule of a preview leaves no legal session out.
 */
module PreviewMaximality {
  import opened Prelude
  import opened Intervals
  import opened Zones
  import opened Availability
  import opened DaylightSaving
  import opened Preview
  import Placement
  import RunLoop
  import Scheduler
  import SchedulerTheorems

  /** The clock change, with all it skips or repeats, lies inside one date. */
  predicate InsideOneDate(tr: Transition) {
    (tr.at + Min(tr.before, tr.after)) / DAY == (tr.at + Max(tr.before, tr.after)) / DAY
  }

  /** Working windows are on whole minutes of one day, and so end before midnight. */
  ghost predicate DayWindows(hours: WorkingHours) {
    forall day, w | day in hours && w in hours[day] :: MinuteWindow(w) && 0 <= w.start && w.end < DAY
  }

  lemma DateOf(naive: int, date: int)
    requires date * DAY <= naive < date * DAY + DAY
    ensures naive / DAY == date
  {
  }

  lemma DateBounds(naive: int)
    ensures naive / DAY * DAY <= naive < naive / DAY * DAY + DAY
  {
  }

  /** An instant of a resolved window is on the window's date, and not its last one. */
  lemma ResolvedOnDate(tr: Transition, date: int, window: WallClockWindow, t: int)
    requires tr.Valid() && InsideOneDate(tr) && MinuteWindow(window) && 0 <= window.start && window.end < DAY
    requires InResolved(tr.Zone(), date, window, t)
    ensures date * DAY <= Local(tr.Zone(), t) < date * DAY + DAY - 1
  {
    hide Resolve;
    Resolved(tr, date, window.start, false);
    Resolved(tr, date, window.end, true);
    assert Local(tr.Zone(), t) == if t < tr.at then t + tr.before else t + tr.after;
    var low, high := tr.at + Min(tr.before, tr.after), tr.at + Max(tr.before, tr.after);
    DateBounds(low);
    DateBounds(high);
    if date * DAY <= high && low < date * DAY + DAY {
      SameDate(low, high, date);
    }
  }

  lemma SameDate(low: int, high: int, date: int)
    requires low <= high && low / DAY == high / DAY
    requires date * DAY <= high && low < date * DAY + DAY
    ensures low / DAY == date
  {
    DateBounds(low);
    DateBounds(high);
  }

  lemma NextInstant(tr: Transition, t: int)
    requires InsideOneDate(tr)
    ensures Local(tr.Zone(), t) % DAY != DAY - 1 ==> LocalDay(tr.Zone(), t + 1) == LocalDay(tr.Zone(), t)
  {
    assert Local(tr.Zone(), t) == if t < tr.at then t + tr.before else t + tr.after;
    assert Local(tr.Zone(), t + 1) == if t + 1 < tr.at then t + 1 + tr.before else t + 1 + tr.after;
    NotLast(Local(tr.Zone(), t));
  }

  lemma NotLast(naive: int)
    ensures naive % DAY != DAY - 1 ==> (naive + 1) / DAY == naive / DAY
  {
  }

  lemma {:induction false} SameDayUpTo(tr: Transition, s: int, t: int)
    requires InsideOneDate(tr) && s <= t
    requires forall u | s <= u < t :: Local(tr.Zone(), u) % DAY != DAY - 1
    ensures LocalDay(tr.Zone(), t) == LocalDay(tr.Zone(), s)
    decreases t - s
  {
    if s < t {
      SameDayUpTo(tr, s, t - 1);
      NextInstant(tr, t - 1);
    }
  }

  lemma WorkedIsNotLast(tr: Transition, hours: WorkingHours, planning: TimeInterval, t: int)
    requires tr.Valid() && InsideOneDate(tr) && AllWeekdays(hours) && DayWindows(hours)
    requires Working(tr.Zone(), hours, planning, t)
    ensures Local(tr.Zone(), t) % DAY != DAY - 1
  {
    hide InResolved;
    var d, j :| WindowIndex(hours, d, j) && InResolved(tr.Zone(), d, hours[Weekday(d)][j], t);
    assert hours[Weekday(d)][j] in hours[Weekday(d)];
    ResolvedOnDate(tr, d, hours[Weekday(d)][j], t);
    DateOf(Local(tr.Zone(), t), d);
  }

  /** A free interval stays on one local day. */
  lemma FreeIsOneLocalDay(
    free: seq<TimeInterval>, planning: TimeInterval, hours: WorkingHours, busy: seq<TimeInterval>, tr: Transition,
    f: TimeInterval)
    requires tr.Valid() && InsideOneDate(tr) && AllWeekdays(hours) && DayWindows(hours)
    requires IsFreeTime(free, planning, hours, busy, tr.Zone()) && f in free
    ensures Placement.OneLocalDay(f, tr.Zone())
  {
    hide Working, Local, InsideOneDate, Canonical, LocalDay;
    var i :| 0 <= i < |free| && free[i] == f;
    forall t | Holds(f, t) ensures LocalDay(tr.Zone(), t) == LocalDay(tr.Zone(), f.start) {
      forall u | f.start <= u < t ensures Local(tr.Zone(), u) % DAY != DAY - 1 {
        assert Holds(free[i], u);
        assert Covers(free, u);
        WorkedIsNotLast(tr, hours, planning, u);
      }
      SameDayUpTo(tr, f.start, t);
    }
  }

  /**
    Maximality of a preview. In a zone whose clock change lies inside one date: when a valid task
    with an id of its own is reported unscheduled, no legal session of it fits the free time of
    the preview beside the blocks scheduled.
   */
  lemma {:induction false} PreviewIsMaximal(
    p: SchedulePreview, planning: TimeInterval, busy: seq<TimeInterval>, tasks: seq<Scheduler.Task>,
    prefs: UserPreferences, tr: Transition, task: Scheduler.Task, span: TimeInterval)
    requires IsPreview(p, planning, busy, tasks, prefs)
    requires prefs.zone == tr.Zone() && tr.Valid() && InsideOneDate(tr) && DayWindows(prefs.hours)
    requires task in tasks && Scheduler.TaskValid(task) && RunLoop.SoleId(tasks, task.id)
    ensures forall report | report in RunLoop.Reports(p.result.unscheduled, task.id) ::
      !SchedulerTheorems.CouldStillPlace(
        task, report.remaining, span, p.free, prefs.scheduling, prefs.zone, p.result.blocks)
  {
    hide IsFreeTime, Scheduler.Scheduled, Placement.OneLocalDay, SchedulerTheorems.CouldStillPlace, RunLoop.Reports,
         DayWindows, InsideOneDate;
    forall f | f in p.free ensures Placement.OneLocalDay(f, prefs.zone) {
      FreeIsOneLocalDay(p.free, planning, prefs.hours, busy, tr, f);
    }
    SchedulerTheorems.ScheduleIsMaximal(tasks, p.free, prefs.scheduling, prefs.zone, [], task, span);
  }
}
