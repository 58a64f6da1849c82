/**
  Two slots that a simpler rule would not choose: a session outside the time of day asked for,
  although a shorter legal one would be in it, and a shorter session with more time to spare.
 */
module SlotExamples {
  import opened Prelude
  import opened Sorting
  import opened Intervals
  import opened Zones
  import opened Scheduler
  import opened Placement
  import opened SlotChoice

  /** A zone that never changes its clock. */
  const PLAIN := OneTransition(0, 0, 0)

  const PREFS := Preferences(AnyTime, 0, None, 30)

  lemma Clipped(task: Task, f: TimeInterval, setting: Setting)
    requires task.earliest.None? && setting.prefs.cutoff.None?
    requires task.deadline.Some? ==> f.end <= task.deadline.value
    ensures Clip(task, f, setting) == Some(f)
  {
  }

  lemma AllAvailable(task: Task, f: TimeInterval, g: TimeInterval, setting: Setting)
    requires setting.Valid() && Clip(task, f, setting) == Some(f) && Clip(task, g, setting) == Some(g)
    ensures setting.free == [f] ==> Available(task, [], setting) == [f]
    ensures setting.free == [f, g] ==> Available(task, [], setting) == [f, g]
  {
    hide Clip;
    var none: seq<TimeInterval> := [];
    assert Reservations(none, setting) == none;
    assert Sort(none, SpanLe) == none;
    assert [f][..0] == none && [f, g][..1] == [f];
    assert Constrained(task, none, setting) == none;
    assert Constrained(task, [f], setting) == Constrained(task, [f][..0], setting) + [f] == [f];
    assert Constrained(task, [f, g], setting) == Constrained(task, [f, g][..1], setting) + [g] == [f, g];
  }

  // ----- outside the time of day asked for -----

  /** Two hours, in the morning if possible, in sessions of at least half an hour. */
  const MORNING := Task("t", 120, Low, None, None, true, Morning, true, 30, 9)

  /** From eleven to one. */
  const NOON: TimeInterval := Span(11 * HOUR, 13 * HOUR)

  lemma PlainDays(day: int, time: int)
    requires 0 <= time < DAY
    ensures LocalDay(PLAIN, day * DAY + time) == day && AtWall(PLAIN, day, time) == day * DAY + time
  {
    FirstReading(0, 0, 0, day * DAY + time);
    ReadingOnDay(day, time);
  }

  lemma NoonCandidate(setting: Setting)
    requires setting == Setting([NOON], PREFS, PLAIN)
    ensures var c := CandidateIn(MORNING, 120, NOON, map[], setting);
      c.Some? && c.value.block == NOON
  {
    hide LocalDay, AtWall;
    PlainDays(0, 11 * HOUR);
    PlainDays(0, 0);
    PlainDays(0, 12 * HOUR);
    assert NOON.DurationMinutes() == 120;
    assert PreferredPlace(NOON, 120, Morning, PLAIN) == (11 * HOUR, 0);
  }

  /** A legal hour before noon, in the time of day asked for, and still the two hours from eleven are booked. */
  lemma SplittableCanMissItsTime()
    ensures var setting := Setting([NOON], PREFS, PLAIN);
      var hour := Span(11 * HOUR, 12 * HOUR);
      && TaskValid(MORNING) && Available(MORNING, [], setting) == [NOON]
      && Within(hour, NOON) && LegalMinutes(MORNING, 60, 120, PREFS) && Preferred(MORNING, NOON, hour, setting)
      && NextBlock(MORNING, 120, [], map[], setting) == Some(NOON) && !Preferred(MORNING, NOON, NOON, setting)
  {
    hide LocalDay, AtWall, CandidateIn, Available;
    var setting := Setting([NOON], PREFS, PLAIN);
    Clipped(MORNING, NOON, setting);
    AllAvailable(MORNING, NOON, NOON, setting);
    NoonCandidate(setting);
    PlainDays(0, 11 * HOUR);
    PlainDays(0, 0);
    PlainDays(0, 12 * HOUR);
    SoleCandidate(MORNING, 120, NOON, map[], setting);
  }

  lemma SoleCandidate(task: Task, remaining: int, v: TimeInterval, counter: SessionCounter, setting: Setting)
    requires setting.Valid() && remaining > 0
    requires Available(task, [], setting) == [v] && CandidateIn(task, remaining, v, counter, setting).Some?
    ensures NextBlock(task, remaining, [], counter, setting) ==
            Some(CandidateIn(task, remaining, v, counter, setting).value.block)
  {
    hide Available, CandidateIn;
    var c := CandidateIn(task, remaining, v, counter, setting).value;
    assert [v][..0] == [] && Candidates(task, remaining, [v][..0], counter, setting) == [];
    assert Candidates(task, remaining, [v], counter, setting) == [c];
  }

  // ----- a shorter session with more to spare -----

  const SPARE := Task("t", 100, Low, None, Some(2_000 * MINUTE), true, AnyTime, true, 30, 9)

  const EARLY: TimeInterval := Span(0, 60 * MINUTE)

  const LATE: TimeInterval := Span(1_000 * MINUTE, 1_061 * MINUTE)

  lemma SpareCandidates(setting: Setting)
    requires setting == Setting([EARLY, LATE], PREFS, PLAIN)
    ensures CandidateIn(SPARE, 100, EARLY, map[], setting) == Some(Candidate(EARLY, EARLY, 0, 1_940, 0))
    ensures CandidateIn(SPARE, 100, LATE, map[], setting) == Some(Candidate(LATE, LATE, 0, 939, 0))
  {
    hide LocalDay, AtWall;
    assert EARLY.DurationMinutes() == 60 && LATE.DurationMinutes() == 61;
  }

  /** An hour early is booked before the longer session late: a minute less, a thousand more to spare. */
  lemma ShorterCanBeBooked()
    ensures var setting := Setting([EARLY, LATE], PREFS, PLAIN);
      && TaskValid(SPARE) && Available(SPARE, [], setting) == [EARLY, LATE]
      && Offers(SPARE, 100, EARLY, EARLY, map[], setting) && Offers(SPARE, 100, LATE, LATE, map[], setting)
      && EARLY.DurationMinutes() < LATE.DurationMinutes()
      && NextBlock(SPARE, 100, [], map[], setting) == Some(EARLY)
  {
    hide Available, CandidateIn, Offers;
    var setting := Setting([EARLY, LATE], PREFS, PLAIN);
    Clipped(SPARE, EARLY, setting);
    Clipped(SPARE, LATE, setting);
    AllAvailable(SPARE, EARLY, LATE, setting);
    SpareCandidates(setting);
    CandidateIsOffer(SPARE, 100, EARLY, map[], setting, EARLY);
    CandidateIsOffer(SPARE, 100, LATE, map[], setting, LATE);
    var early, late := Candidate(EARLY, EARLY, 0, 1_940, 0), Candidate(LATE, LATE, 0, 939, 0);
    assert [EARLY, LATE][..1] == [EARLY] && [EARLY][..0] == [];
    assert Candidates(SPARE, 100, [EARLY][..0], map[], setting) == [];
    assert Candidates(SPARE, 100, [EARLY], map[], setting) == [early];
    assert Candidates(SPARE, 100, [EARLY, LATE], map[], setting) == [early] + [late];
    assert [early, late][..1] == [early];
    assert EARLY.DurationMinutes() == 60 && LATE.DurationMinutes() == 61;
    assert !Better(late, early);
    assert Select([early]) == early && Select([early, late]) == early;
  }
}
