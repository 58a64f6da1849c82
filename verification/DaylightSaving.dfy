/**
  How `_resolve_local` behaves around a clock change: in a zone with one transition the
  resolved window of a date holds every instant whose wall clock is in the window, and
  holds nothing else exactly when no boundary of the window is read twice that day.
 */
module DaylightSaving {
  import opened Prelude
  import opened Intervals
  import opened Zones
  import opened Availability

  /** A transition the resolution copes with: on whole minutes, skipping at most three hours. */
  datatype Transition = Transition(at: int, before: int, after: int) {
    predicate Valid() {
      && at % MINUTE == 0 && before % MINUTE == 0 && after % MINUTE == 0
      && after - before <= 180 * MINUTE
    }

    function Zone(): Zones.Zone {
      OneTransition(at, before, after)
    }

    /** No instant shows this wall clock. */
    predicate Skipped(naive: int) {
      at + before <= naive < at + after
    }

    /** Two instants show this wall clock. */
    predicate Repeated(naive: int) {
      at + after <= naive < at + before
    }
  }

  /** The candidates of a wall clock are all the instants that show it. */
  lemma ReadingsAreExact(tr: Transition, naive: int)
    ensures forall t :: t in ValidLocal(tr.Zone(), naive) <==> Local(tr.Zone(), t) == naive
    ensures ValidLocal(tr.Zone(), naive) == [] <==> tr.Skipped(naive)
    ensures |ValidLocal(tr.Zone(), naive)| == 2 <==> tr.Repeated(naive)
  {
    var zone := tr.Zone();
    var first, second := zone.resolve(naive, 0), zone.resolve(naive, 1);
    assert first == if naive >= tr.at + Max(tr.before, tr.after) then naive - tr.after else naive - tr.before;
    assert second == if naive >= tr.at + Min(tr.before, tr.after) then naive - tr.after else naive - tr.before;
    assert forall t :: zone.offset(t) == if t < tr.at then tr.before else tr.after;
  }

  /** A skipped wall clock moves on to the transition. */
  lemma {:induction false} SkippedResolves(tr: Transition, reading: int, last: int, isEnd: bool)
    requires tr.Skipped(reading) && (tr.at + tr.after - reading) % MINUTE == 0
    requires tr.at + tr.after <= last
    ensures ResolveFrom(tr.Zone(), reading, last, isEnd) == Ok(tr.at)
    decreases tr.at + tr.after - reading
  {
    ReadingsAreExact(tr, reading);
    var next := reading + MINUTE;
    assert next <= tr.at + tr.after;
    if next == tr.at + tr.after {
      ReadingsAreExact(tr, next);
      assert Local(tr.Zone(), tr.at) == next;
      var c := ValidLocal(tr.Zone(), next);
      assert |c| == 1 && tr.at in c;
    } else {
      SkippedResolves(tr, next, last, isEnd);
    }
  }

  lemma ReadingFound(zone: Zone, reading: int, last: int, isEnd: bool)
    requires reading <= last && ValidLocal(zone, reading) != []
    ensures var candidates := ValidLocal(zone, reading);
      ResolveFrom(zone, reading, last, isEnd) == Ok(candidates[if isEnd then |candidates| - 1 else 0])
  {
  }

  /** Where a whole-minute wall clock ends up: the transition, the only reading, the first or the last one. */
  lemma Resolved(tr: Transition, date: int, wall: int, isEnd: bool)
    requires tr.Valid() && wall % MINUTE == 0
    ensures var naive := date * DAY + wall;
      Resolve(tr.Zone(), date, wall, isEnd) == Ok(
        if tr.Skipped(naive) then tr.at
        else if tr.Repeated(naive) then (if isEnd then naive - tr.after else naive - tr.before)
        else if naive < tr.at + tr.before then naive - tr.before
        else naive - tr.after)
  {
    hide ResolveFrom;
    var naive := date * DAY + wall;
    if tr.Skipped(naive) {
      SkippedResolves(tr, naive, naive + 180 * MINUTE, isEnd);
    } else {
      ReadingsAreExact(tr, naive);
      ReadingFound(tr.Zone(), naive, naive + 180 * MINUTE, isEnd);
    }
  }

  predicate MinuteWindow(window: WallClockWindow) {
    window.start % MINUTE == 0 && window.end % MINUTE == 0
  }

  /** The wall clock at t is on the date and inside the window. */
  predicate ShowsWindow(tr: Transition, date: int, window: WallClockWindow, t: int) {
    date * DAY + window.start <= Local(tr.Zone(), t) < date * DAY + window.end
  }

  /** Resolution never fails and loses no instant of the window. */
  lemma WindowCovered(tr: Transition, date: int, window: WallClockWindow, t: int)
    requires tr.Valid() && MinuteWindow(window)
    ensures Resolvable(tr.Zone(), date, window)
    ensures ShowsWindow(tr, date, window, t) ==> InResolved(tr.Zone(), date, window, t)
  {
    Resolved(tr, date, window.start, false);
    Resolved(tr, date, window.end, true);
    assert tr.Zone().offset(t) == if t < tr.at then tr.before else tr.after;
  }

  /** It adds no instant exactly when the window neither starts inside a repeated stretch nor ends in one. */
  lemma WindowExactIff(tr: Transition, date: int, window: WallClockWindow)
    requires tr.Valid() && MinuteWindow(window)
    ensures (forall t :: InResolved(tr.Zone(), date, window, t) <==> ShowsWindow(tr, date, window, t)) <==>
            && !(tr.at + tr.after < date * DAY + window.start < tr.at + tr.before)
            && !tr.Repeated(date * DAY + window.end)
  {
    var zone := tr.Zone();
    var start, end := date * DAY + window.start, date * DAY + window.end;
    Resolved(tr, date, window.start, false);
    Resolved(tr, date, window.end, true);
    assert forall t :: zone.offset(t) == if t < tr.at then tr.before else tr.after;
    if tr.at + tr.after < start < tr.at + tr.before {
      // the second time the clock reaches the transition it reads less than the start
      assert InResolved(zone, date, window, tr.at) && !ShowsWindow(tr, date, window, tr.at);
    } else if tr.Repeated(end) {
      // just before the transition the clock has already passed the end once
      assert InResolved(zone, date, window, tr.at - 1) && !ShowsWindow(tr, date, window, tr.at - 1);
    } else {
      forall t ensures InResolved(zone, date, window, t) <==> ShowsWindow(tr, date, window, t) {
      }
    }
  }

  /** A date the transition does not touch has exact windows. */
  lemma PlainDateIsExact(tr: Transition, date: int, window: WallClockWindow, t: int)
    requires tr.Valid() && MinuteWindow(window) && 0 <= window.start && window.end < DAY
    requires tr.at + Max(tr.before, tr.after) <= date * DAY || (date + 1) * DAY <= tr.at + Min(tr.before, tr.after)
    ensures InResolved(tr.Zone(), date, window, t) <==> ShowsWindow(tr, date, window, t)
  {
    WindowExactIff(tr, date, window);
  }
}
