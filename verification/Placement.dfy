/**
  What one turn of `_place_task` does: the block it books is legal, and when it books
  none, no legal session exists.
 */
module Placement {
  import opened Prelude
  import opened Intervals
  import opened Zones
  import opened Scheduler
  import opened Subtraction

  /** Where a task's clipped free interval starts. */
  function ClippedStart(task: Task, free: TimeInterval): int {
    if task.earliest.Some? then Max(free.start, task.earliest.value) else free.start
  }

  predicate InWindow(task: Task, span: TimeInterval) {
    && (task.earliest.Some? ==> task.earliest.value <= span.start)
    && (task.deadline.Some? ==> span.end <= task.deadline.value)
  }

  predicate BeforeCutoff(day: int, span: TimeInterval, setting: Setting) {
    setting.prefs.cutoff.Some? ==> span.end <= AtWall(setting.zone, day, setting.prefs.cutoff.value)
  }

  /** Inside one free interval, in the task's window, and before the cutoff of the day the clipped interval starts. */
  predicate SoundIn(task: Task, span: TimeInterval, free: TimeInterval, setting: Setting) {
    && Within(span, free)
    && InWindow(task, span)
    && BeforeCutoff(LocalDay(setting.zone, ClippedStart(task, free)), span, setting)
  }

  ghost predicate SoundPlace(task: Task, span: TimeInterval, setting: Setting) {
    exists f | f in setting.free :: SoundIn(task, span, f, setting)
  }

  /** A session may leave nothing, or enough for another one. */
  predicate LegalPart(minutes: int, remaining: int, minimum: int) {
    minimum <= minutes <= remaining && (minutes == remaining || remaining - minutes >= minimum)
  }

  /** As long as the task and the user want a session to be. */
  predicate LongEnough(task: Task, minutes: int, prefs: Preferences) {
    task.minSession <= minutes && prefs.defaultMinSession <= minutes
  }

  /** A session is long enough and leaves nothing, or enough for another one; a task not to be split gets it whole. */
  predicate LegalMinutes(task: Task, minutes: int, remaining: int, prefs: Preferences) {
    if task.splittable then
      && LongEnough(task, minutes, prefs) && minutes <= remaining
      && (minutes == remaining || LongEnough(task, remaining - minutes, prefs))
    else minutes == remaining
  }

  lemma LegalIsPart(task: Task, minutes: int, remaining: int, prefs: Preferences)
    requires task.splittable
    ensures LegalMinutes(task, minutes, remaining, prefs) <==>
            LegalPart(minutes, remaining, EffectiveMinimum(task, prefs))
  {
  }

  /** `_splittable_session_minutes` is the longest legal part that fits, 0 when none does. */
  lemma SplittableIsLargest(remaining: int, available: int, minimum: int)
    requires minimum > 0
    ensures var r := SplittableSession(remaining, available, minimum);
      && (r == 0 || (LegalPart(r, remaining, minimum) && r <= available))
      && (forall m :: LegalPart(m, remaining, minimum) && m <= available ==> m <= r)
  {
  }

  // ----- clipping -----

  lemma ClipIsSound(task: Task, free: TimeInterval, setting: Setting, span: TimeInterval)
    requires Clip(task, free, setting).Some?
    ensures Within(span, Clip(task, free, setting).value) ==> SoundIn(task, span, free, setting)
  {
  }

  lemma ClipIsComplete(task: Task, free: TimeInterval, setting: Setting, span: TimeInterval)
    requires SoundIn(task, span, free, setting)
    ensures Clip(task, free, setting).Some? && Within(span, Clip(task, free, setting).value)
  {
  }

  lemma {:induction false} ConstrainedMembers(task: Task, free: seq<TimeInterval>, setting: Setting)
    ensures forall c | c in Constrained(task, free, setting) ::
      exists f | f in free :: Clip(task, f, setting) == Some(c)
    ensures forall f | f in free :: Clip(task, f, setting).Some? ==>
      Clip(task, f, setting).value in Constrained(task, free, setting)
  {
    hide Clip;
    if free != [] {
      var init, last := free[..|free| - 1], free[|free| - 1];
      ConstrainedMembers(task, init, setting);
      forall c | c in Constrained(task, free, setting)
        ensures exists f | f in free :: Clip(task, f, setting) == Some(c)
      {
        if c in Constrained(task, init, setting) {
          var f :| f in init && Clip(task, f, setting) == Some(c);
          assert f in free;
        } else {
          assert last in free;
        }
      }
      forall f | f in free && Clip(task, f, setting).Some?
        ensures Clip(task, f, setting).value in Constrained(task, free, setting)
      {
        assert f == last || f in init;
      }
    }
  }

  // ----- what is available -----

  lemma ClearOfReservations(managed: seq<TimeInterval>, setting: Setting, span: TimeInterval)
    requires setting.Valid()
    ensures ClearOf(span, Reservations(managed, setting)) <==>
            forall m | m in managed :: Apart(span, m, setting.Break())
  {
    var rs := Reservations(managed, setting);
    if ClearOf(span, rs) {
      forall m | m in managed ensures Apart(span, m, setting.Break()) {
        var i :| 0 <= i < |managed| && managed[i] == m;
        assert rs[i] in rs;
      }
    }
    if forall m | m in managed :: Apart(span, m, setting.Break()) {
      forall r | r in rs ensures !Overlaps(span, r) {
        var i :| 0 <= i < |rs| && rs[i] == r;
        assert managed[i] in managed;
      }
    }
  }

  /** An available interval, and any part of it, is a sound place away from every booked interval. */
  lemma {:induction false} AvailableIsSound(
    task: Task, managed: seq<TimeInterval>, setting: Setting, v: TimeInterval, span: TimeInterval)
    requires setting.Valid() && v in Available(task, managed, setting) && Within(span, v)
    ensures SoundPlace(task, span, setting)
    ensures forall m | m in managed :: Apart(span, m, setting.Break())
  {
    hide Subtract, Constrained, Reservations, Clip, SoundIn;
    var sources, rs := Constrained(task, setting.free, setting), Reservations(managed, setting);
    SubtractSound(sources, rs);
    assert InsideSome(v, sources) && ClearOf(v, rs);
    ClearOfReservations(managed, setting, v);
    var s :| s in sources && Within(v, s);
    ConstrainedMembers(task, setting.free, setting);
    var f :| f in setting.free && Clip(task, f, setting) == Some(s);
    ClipIsSound(task, f, setting, span);
  }

  /** A sound place away from every booked interval is part of one available interval of the same free interval. */
  lemma AvailableIsComplete(
    task: Task, managed: seq<TimeInterval>, setting: Setting, span: TimeInterval, f: TimeInterval)
    requires setting.Valid() && f in setting.free && SoundIn(task, span, f, setting)
    requires forall m | m in managed :: Apart(span, m, setting.Break())
    ensures InsideSome(span, Available(task, managed, setting))
  {
    hide Subtract, Constrained, Reservations, Clip, SoundIn;
    var sources, rs := Constrained(task, setting.free, setting), Reservations(managed, setting);
    ClipIsComplete(task, f, setting, span);
    ConstrainedMembers(task, setting.free, setting);
    assert Clip(task, f, setting).value in sources;
    ClearOfReservations(managed, setting, span);
    SubtractComplete(sources, rs, span);
  }

  lemma {:induction false} CandidatesComplete(
    task: Task, remaining: int, spans: seq<TimeInterval>, counter: SessionCounter, setting: Setting)
    requires Candidates(task, remaining, spans, counter, setting) == []
    ensures forall v | v in spans :: CandidateIn(task, remaining, v, counter, setting).None?
  {
    hide CandidateIn;
    if spans != [] {
      CandidatesComplete(task, remaining, spans[..|spans| - 1], counter, setting);
    }
  }

  // ----- a candidate -----

  lemma PreferredPlaceFits(span: TimeInterval, minutes: int, preferred: TimeOfDay, zone: Zone)
    requires 0 <= minutes * MINUTE <= span.end - span.start
    ensures var start := PreferredPlace(span, minutes, preferred, zone).0;
      && span.start <= start
      && start + minutes * MINUTE <= span.end
      && (minutes > 0 && KeepsDay(zone) ==> LocalDay(zone, start) == LocalDay(zone, span.start))
  {
    if preferred != AnyTime && PreferredPlace(span, minutes, preferred, zone).0 > span.start {
      var window := PreferredBounds(preferred);
      assert PreferredWindow(window.0, window.1);
      assert minutes > 0 ==> Ahead(zone, span.start, window.0, window.1);
    }
  }

  /** Keeping days is exactly what the scheduler needs: every session is placed on the day its interval starts. */
  lemma KeepsDayIff(zone: Zone)
    ensures KeepsDay(zone) <==>
            forall span: TimeInterval, minutes, preferred |
              0 < minutes && minutes * MINUTE <= span.end - span.start ::
              LocalDay(zone, PreferredPlace(span, minutes, preferred, zone).0) == LocalDay(zone, span.start)
  {
    hide PreferredPlace, AtWall, LocalDay, KeepsDay;
    if KeepsDay(zone) {
      forall span: TimeInterval, minutes, preferred | 0 < minutes && minutes * MINUTE <= span.end - span.start
        ensures LocalDay(zone, PreferredPlace(span, minutes, preferred, zone).0) == LocalDay(zone, span.start)
      {
        PreferredPlaceFits(span, minutes, preferred, zone);
      }
    }
    if !KeepsDay(zone) {
      var t, start, end := LosesDay(zone);
      var span: TimeInterval := Span(t, AtWall(zone, LocalDay(zone, t), start) + MINUTE);
      var preferred := if start == 0 then Morning else if start == 12 * HOUR then Afternoon else Evening;
      AheadIsPlace(zone, t, start, end, span, preferred);
    }
  }

  lemma LosesDay(zone: Zone) returns (t: int, start: int, end: int)
    requires !KeepsDay(zone)
    ensures PreferredWindow(start, end) && Ahead(zone, t, start, end)
    ensures LocalDay(zone, AtWall(zone, LocalDay(zone, t), start)) != LocalDay(zone, t)
  {
    hide AtWall, LocalDay, PreferredWindow, Ahead;
    t, start, end :| PreferredWindow(start, end) && Ahead(zone, t, start, end)
      && LocalDay(zone, AtWall(zone, LocalDay(zone, t), start)) != LocalDay(zone, t);
  }

  /** A one-minute session in an interval from t that ends as early as it can is placed at the window's start. */
  lemma AheadIsPlace(zone: Zone, t: int, start: int, end: int, span: TimeInterval, preferred: TimeOfDay)
    requires Ahead(zone, t, start, end) && preferred != AnyTime && PreferredBounds(preferred) == (start, end)
    requires span.start == t && span.end == AtWall(zone, LocalDay(zone, t), start) + MINUTE
    ensures PreferredPlace(span, 1, preferred, zone).0 == AtWall(zone, LocalDay(zone, t), start)
  {
    hide AtWall, LocalDay;
  }

  lemma CandidateIsLegal(
    task: Task, remaining: int, v: TimeInterval, counter: SessionCounter, setting: Setting)
    requires setting.Valid() && TaskValid(task) && remaining > 0
    requires CandidateIn(task, remaining, v, counter, setting).Some?
    ensures var b := CandidateIn(task, remaining, v, counter, setting).value.block;
      && Within(b, v)
      && b.end == b.start + b.DurationMinutes() * MINUTE
      && LegalMinutes(task, b.DurationMinutes(), remaining, setting.prefs)
      && (KeepsDay(setting.zone) ==> Count(counter, task.id, LocalDay(setting.zone, b.start)) < task.maxPerDay)
  {
    hide PreferredPlace, LocalDay, KeepsDay, Count, SplittableSession;
    var minimum := EffectiveMinimum(task, setting.prefs);
    var minutes := SessionMinutes(task, remaining, v.DurationMinutes(), minimum);
    SplittableIsLargest(remaining, v.DurationMinutes(), minimum);
    PreferredPlaceFits(v, minutes, Preference(task, setting.prefs), setting.zone);
  }

  lemma NoCandidateMeansCappedOrShort(
    task: Task, remaining: int, v: TimeInterval, counter: SessionCounter, setting: Setting, minutes: int)
    requires setting.Valid() && TaskValid(task) && remaining > 0
    requires CandidateIn(task, remaining, v, counter, setting).None?
    requires LegalMinutes(task, minutes, remaining, setting.prefs) && minutes <= v.DurationMinutes()
    ensures Count(counter, task.id, LocalDay(setting.zone, v.start)) >= task.maxPerDay
  {
    hide PreferredPlace, LocalDay, Count, SplittableSession;
    SplittableIsLargest(remaining, v.DurationMinutes(), EffectiveMinimum(task, setting.prefs));
    if task.splittable {
      LegalIsPart(task, minutes, remaining, setting.prefs);
    }
  }

  // ----- one turn -----

  /**
    The block booked is in a sound place away from everything booked, of a legal whole-minute
    length, on an uncapped day.
   */
  lemma NextBlockIsLegal(
    task: Task, remaining: int, managed: seq<TimeInterval>, counter: SessionCounter, setting: Setting)
    requires setting.Valid() && TaskValid(task) && remaining > 0
    requires NextBlock(task, remaining, managed, counter, setting).Some?
    ensures var b := NextBlock(task, remaining, managed, counter, setting).value;
      && SoundPlace(task, b, setting)
      && (forall m | m in managed :: Apart(b, m, setting.Break()))
      && b.end == b.start + b.DurationMinutes() * MINUTE
      && LegalMinutes(task, b.DurationMinutes(), remaining, setting.prefs)
      && (KeepsDay(setting.zone) ==> Count(counter, task.id, LocalDay(setting.zone, b.start)) < task.maxPerDay)
  {
    hide Available, Candidates, CandidateIn, LegalMinutes, SoundPlace;
    var available := Available(task, managed, setting);
    CandidatesFit(task, remaining, available, counter, setting);
    var c := Select(Candidates(task, remaining, available, counter, setting));
    CandidateIsLegal(task, remaining, c.interval, counter, setting);
    AvailableIsSound(task, managed, setting, c.interval, c.block);
  }

  /** All of an interval's instants fall on the local day it starts. */
  ghost predicate OneLocalDay(span: TimeInterval, zone: Zone) {
    forall t | Holds(span, t) :: LocalDay(zone, t) == LocalDay(zone, span.start)
  }

  /** A legal session of a task beside the intervals booked, with the sessions of each day counted. */
  ghost predicate FitsBeside(
    task: Task, remaining: int, span: TimeInterval, managed: seq<TimeInterval>, counter: SessionCounter,
    setting: Setting)
  {
    && (exists f | f in setting.free :: Within(span, f))
    && InWindow(task, span)
    && BeforeCutoff(LocalDay(setting.zone, span.start), span, setting)
    && (forall m | m in managed :: Apart(span, m, setting.Break()))
    && Count(counter, task.id, LocalDay(setting.zone, span.start)) < task.maxPerDay
    && span.end == span.start + span.DurationMinutes() * MINUTE
    && LegalMinutes(task, span.DurationMinutes(), remaining, setting.prefs)
  }

  /** When nothing is booked, nothing fits. */
  lemma {:induction false} NoBlockMeansNoFit(
    task: Task, remaining: int, managed: seq<TimeInterval>, counter: SessionCounter, setting: Setting,
    span: TimeInterval)
    requires setting.Valid() && TaskValid(task) && remaining > 0
    requires forall f | f in setting.free :: OneLocalDay(f, setting.zone)
    requires NextBlock(task, remaining, managed, counter, setting).None?
    ensures !FitsBeside(task, remaining, span, managed, counter, setting)
  {
    hide Available, Candidates, CandidateIn, LegalMinutes, LocalDay, Count;
    if FitsBeside(task, remaining, span, managed, counter, setting) {
      var f :| f in setting.free && Within(span, f);
      assert OneLocalDay(f, setting.zone);
      assert Holds(f, span.start) && Holds(f, ClippedStart(task, f));
      AvailableIsComplete(task, managed, setting, span, f);
      var available := Available(task, managed, setting);
      var v :| v in available && Within(span, v);
      CandidatesComplete(task, remaining, available, counter, setting);
      assert span.DurationMinutes() <= v.DurationMinutes();
      NoCandidateMeansCappedOrShort(task, remaining, v, counter, setting, span.DurationMinutes());
      SameDayInFree(task, managed, setting, v, span);
      assert false;
    }
  }

  /** An available interval lies in one free interval, so a session in it starts on the day the interval starts. */
  lemma {:induction false} SameDayInFree(
    task: Task, managed: seq<TimeInterval>, setting: Setting, v: TimeInterval, span: TimeInterval)
    requires setting.Valid() && v in Available(task, managed, setting) && Within(span, v)
    requires forall f | f in setting.free :: OneLocalDay(f, setting.zone)
    ensures LocalDay(setting.zone, span.start) == LocalDay(setting.zone, v.start)
  {
    hide Available, LocalDay, InWindow, BeforeCutoff;
    AvailableIsSound(task, managed, setting, v, v);
    var f :| f in setting.free && SoundIn(task, v, f, setting);
    assert OneLocalDay(f, setting.zone);
    assert Holds(f, span.start) && Holds(f, v.start);
  }
}
