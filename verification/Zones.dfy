/**
  A time zone, as the two conversions the source asks of it: the offset in force at an
  instant, and the instant a wall-clock reading with a fold stands for. Wall-clock
  readings count microseconds since the epoch's local midnight.
 */
module Zones {
  import opened Prelude
  import opened Intervals

  datatype Zone = Zone(offset: int -> int, resolve: (int, int) -> int)

  /** The wall clock at an instant. */
  function Local(zone: Zone, t: int): int {
    t + zone.offset(t)
  }

  /** The local date of an instant, as a day number. */
  function LocalDay(zone: Zone, t: int): int {
    Local(zone, t) / DAY
  }

  /** `datetime.combine(day, time, tzinfo=zone).astimezone(UTC)`: the first reading, fold 0. */
  function AtWall(zone: Zone, day: int, time: int): int {
    zone.resolve(day * DAY + time, 0)
  }

  /** The preferred windows of a day: until noon, until five, and until its last microsecond. */
  predicate PreferredWindow(start: int, end: int) {
    || (start == 0 && end == 12 * HOUR)
    || (start == 12 * HOUR && end == 17 * HOUR)
    || (start == 17 * HOUR && end == DAY - 1)
  }

  /** At t, the window lies ahead on the day's clock and has room for a session. */
  predicate Ahead(zone: Zone, t: int, start: int, end: int) {
    var day := LocalDay(zone, t);
    t < AtWall(zone, day, start) && AtWall(zone, day, start) + MINUTE <= AtWall(zone, day, end)
  }

  /** What the scheduler needs of a zone: a preferred window that lies ahead starts on the same day. */
  ghost predicate KeepsDay(zone: Zone) {
    forall t, start, end | PreferredWindow(start, end) && Ahead(zone, t, start, end) ::
      LocalDay(zone, AtWall(zone, LocalDay(zone, t), start)) == LocalDay(zone, t)
  }

  /**
    A zone whose offset changes once, at `transition`, from `before` to `after`. A fold-0
    reading changes sides at the later of the two wall clocks of the transition, a fold-1
    reading at the earlier one.
   */
  function OneTransition(transition: int, before: int, after: int): Zone {
    Zone(
      t => if t < transition then before else after,
      (wall, fold) =>
        if wall >= transition + (if fold == 0 then Max(before, after) else Min(before, after))
        then wall - after
        else wall - before)
  }

  /** A fold-0 reading is read back unchanged, or pushed forward by the gap it falls in. */
  lemma FirstReading(transition: int, before: int, after: int, wall: int)
    ensures var zone := OneTransition(transition, before, after);
      var t := zone.resolve(wall, 0);
      if transition + before <= wall < transition + after
      then t == wall - before >= transition && Local(zone, t) == wall + (after - before)
      else Local(zone, t) == wall
  {
    var zone := OneTransition(transition, before, after);
    var t := zone.resolve(wall, 0);
    assert t == if wall >= transition + Max(before, after) then wall - after else wall - before;
    assert zone.offset(t) == if t < transition then before else after;
  }

  /** The last day shown before the transition, and the first one shown from it on. */
  predicate Touched(transition: int, before: int, after: int, day: int) {
    day == (transition + before - 1) / DAY || day == (transition + after) / DAY
  }

  /** The clock skips the whole window on that day, and what stands in for its start is on a later day. */
  predicate PushedOff(transition: int, before: int, after: int, day: int, start: int, end: int) {
    && transition + before <= day * DAY + start && day * DAY + end < transition + after
    && start + (after - before) >= DAY
  }

  lemma ReadingOnDay(day: int, time: int)
    requires 0 <= time < DAY
    ensures (day * DAY + time) / DAY == day
  {
  }

  lemma ReadingOffDay(day: int, time: int)
    requires time >= DAY
    ensures (day * DAY + time) / DAY > day
  {
  }

  /** Two readings of one day enclose readings of that day only. */
  lemma BetweenOnDay(a: int, b: int, c: int)
    requires a <= b <= c && a / DAY == c / DAY
    ensures b / DAY == a / DAY
  {
  }

  /** A zone with one transition keeps the day unless the transition pushes a window off a day it touches. */
  lemma OneTransitionKeepsDayIff(transition: int, before: int, after: int)
    ensures KeepsDay(OneTransition(transition, before, after)) <==>
            forall day, start, end | PreferredWindow(start, end) && Touched(transition, before, after, day) ::
              !PushedOff(transition, before, after, day, start, end)
  {
    var zone := OneTransition(transition, before, after);
    if KeepsDay(zone) {
      forall day, start, end | PreferredWindow(start, end) && Touched(transition, before, after, day)
        ensures !PushedOff(transition, before, after, day, start, end)
      {
        if PushedOff(transition, before, after, day, start, end) {
          var t := PushedIsAhead(transition, before, after, day, start, end);
        }
      }
    }
    if forall day, start, end | PreferredWindow(start, end) && Touched(transition, before, after, day) ::
      !PushedOff(transition, before, after, day, start, end)
    {
      forall t, start, end | PreferredWindow(start, end) && Ahead(zone, t, start, end)
        ensures LocalDay(zone, AtWall(zone, LocalDay(zone, t), start)) == LocalDay(zone, t)
      {
        StaysUnlessPushedOff(transition, before, after, t, start, end);
      }
    }
  }

  /** The last instant before the transition, or the transition itself, shows a touched day. */
  lemma TouchedIsShown(transition: int, before: int, after: int, day: int)
    requires Touched(transition, before, after, day)
    ensures var zone := OneTransition(transition, before, after);
      var t := if day == (transition + before - 1) / DAY then transition - 1 else transition;
      Local(zone, t) == (if t < transition then t + before else t + after) && LocalDay(zone, t) == day
  {
  }

  /** A window pushed off its day starts at or after the transition, on a later day. */
  lemma PushedWindow(transition: int, before: int, after: int, day: int, start: int, end: int)
    requires PreferredWindow(start, end) && PushedOff(transition, before, after, day, start, end)
    ensures var zone := OneTransition(transition, before, after);
      && transition <= AtWall(zone, day, start)
      && AtWall(zone, day, start) + MINUTE <= AtWall(zone, day, end)
      && LocalDay(zone, AtWall(zone, day, start)) > day
  {
    FirstReading(transition, before, after, day * DAY + start);
    FirstReading(transition, before, after, day * DAY + end);
    ReadingOffDay(day, start + (after - before));
    assert day * DAY + (start + (after - before)) == day * DAY + start + (after - before);
  }

  /** On a touched day such a window lies ahead of an instant of that day. */
  lemma PushedIsAhead(transition: int, before: int, after: int, day: int, start: int, end: int) returns (t: int)
    requires PreferredWindow(start, end) && Touched(transition, before, after, day)
    requires PushedOff(transition, before, after, day, start, end)
    ensures var zone := OneTransition(transition, before, after);
      Ahead(zone, t, start, end) && LocalDay(zone, AtWall(zone, LocalDay(zone, t), start)) != LocalDay(zone, t)
  {
    hide AtWall, LocalDay, Touched, PreferredWindow, PushedOff;
    t := if day == (transition + before - 1) / DAY then transition - 1 else transition;
    TouchedIsShown(transition, before, after, day);
    PushedWindow(transition, before, after, day, start, end);
  }

  lemma StaysUnlessPushedOff(transition: int, before: int, after: int, t: int, start: int, end: int)
    requires PreferredWindow(start, end) && Ahead(OneTransition(transition, before, after), t, start, end)
    ensures var zone := OneTransition(transition, before, after);
      var day := LocalDay(zone, t);
      || LocalDay(zone, AtWall(zone, day, start)) == day
      || (Touched(transition, before, after, day) && PushedOff(transition, before, after, day, start, end))
  {
    var zone := OneTransition(transition, before, after);
    var day := LocalDay(zone, t);
    var reading := day * DAY + start;
    ReadingOnDay(day, start);
    FirstReading(transition, before, after, reading);
    FirstReading(transition, before, after, day * DAY + end);
    assert Local(zone, t) == if t < transition then t + before else t + after;
    if transition + before <= reading < transition + after {
      if start + (after - before) < DAY {
        ReadingOnDay(day, start + (after - before));
        assert day * DAY + (start + (after - before)) == reading + (after - before);
      } else if t < transition {
        BetweenOnDay(t + before, transition + before - 1, reading);
      } else {
        BetweenOnDay(reading, transition + after, t + after);
      }
    }
  }

  /** Clock changes of less than seven hours keep the preferred windows on their day. */
  lemma OneTransitionKeepsDay(transition: int, before: int, after: int)
    requires after - before < 7 * HOUR
    ensures KeepsDay(OneTransition(transition, before, after))
  {
    OneTransitionKeepsDayIff(transition, before, after);
  }

  /** So does a zone that skips exactly one whole day, such as Samoa's in 2011. */
  lemma SkippedDayKeepsDay(day: int, before: int)
    ensures KeepsDay(OneTransition(day * DAY - before, before, before + DAY))
  {
    hide KeepsDay, PreferredWindow, Touched, PushedOff;
    var transition, after := day * DAY - before, before + DAY;
    forall d, start, end | PreferredWindow(start, end) && Touched(transition, before, after, d)
      ensures !PushedOff(transition, before, after, d, start, end)
    {
      SkipPushesNothing(day, before, d, start, end);
    }
    OneTransitionKeepsDayIff(transition, before, after);
  }

  lemma SkipPushesNothing(day: int, before: int, d: int, start: int, end: int)
    requires PreferredWindow(start, end) && Touched(day * DAY - before, before, before + DAY, d)
    ensures !PushedOff(day * DAY - before, before, before + DAY, d, start, end)
  {
    ReadingOnDay(day - 1, DAY - 1);
    ReadingOnDay(day + 1, 0);
  }
}
