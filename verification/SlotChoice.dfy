/**
  Which slot a session gets. Every available interval offers the longest legal session, placed
  in the time of day asked for where it fits there and at the interval's start where it does
  not. The block booked is the best offer: the time of day first, unless another offer
  outweighs it, then minutes, spare time and what is left over, and the earlier one on a tie.
 */
module SlotChoice {
  import opened Prelude
  import opened Intervals
  import opened Zones
  import opened Scheduler
  import opened Placement

  // ----- what an available interval offers -----

  /** The time of day asked for: the task's, or the user's for a task that asks for none. */
  predicate Asks(task: Task, prefs: Preferences, time: TimeOfDay) {
    time != AnyTime && (task.preferred == time || (task.preferred == AnyTime && prefs.preferred == time))
  }

  /** Between two wall-clock times of a local day. */
  predicate Between(span: Span, zone: Zone, day: int, from: int, to: int) {
    AtWall(zone, day, from) <= span.start && span.end <= AtWall(zone, day, to)
  }

  /** In the morning, the afternoon or the evening of that day, as asked for. */
  predicate InTime(task: Task, span: Span, day: int, setting: Setting) {
    || (Asks(task, setting.prefs, Morning) && Between(span, setting.zone, day, 0, 12 * HOUR))
    || (Asks(task, setting.prefs, Afternoon) && Between(span, setting.zone, day, 12 * HOUR, 17 * HOUR))
    || (Asks(task, setting.prefs, Evening) && Between(span, setting.zone, day, 17 * HOUR, DAY - 1))
  }

  /** In the time of day asked for, of the day the interval v starts. */
  predicate Preferred(task: Task, v: TimeInterval, span: Span, setting: Setting) {
    InTime(task, span, LocalDay(setting.zone, v.start), setting)
  }

  /** A place for that many minutes in v, in the time of day asked for. */
  predicate PreferredSpot(task: Task, v: TimeInterval, start: int, minutes: int, setting: Setting) {
    var span := Span(start, start + minutes * MINUTE);
    Within(span, v) && Preferred(task, v, span, setting)
  }

  /** Where v has room in the time of day asked for, the earliest such place; else the start of v. */
  ghost predicate Spot(task: Task, v: TimeInterval, start: int, minutes: int, setting: Setting) {
    if exists t :: PreferredSpot(task, v, t, minutes, setting) then
      && PreferredSpot(task, v, start, minutes, setting)
      && forall t | PreferredSpot(task, v, t, minutes, setting) :: start <= t
    else start == v.start
  }

  /** The longest legal session that fits v. */
  ghost predicate Longest(task: Task, v: TimeInterval, minutes: int, remaining: int, prefs: Preferences) {
    && LegalMinutes(task, minutes, remaining, prefs) && minutes <= v.DurationMinutes()
    && forall m | LegalMinutes(task, m, remaining, prefs) && m <= v.DurationMinutes() :: m <= minutes
  }

  /** On a day below the cap, the longest legal session at its spot. */
  ghost predicate Offers(
    task: Task, remaining: int, v: TimeInterval, block: Span, counter: SessionCounter, setting: Setting)
  {
    var minutes := block.DurationMinutes();
    && Count(counter, task.id, LocalDay(setting.zone, v.start)) < task.maxPerDay
    && Longest(task, v, minutes, remaining, setting.prefs)
    && Spot(task, v, block.start, minutes, setting)
    && block.end == block.start + minutes * MINUTE
  }

  // ----- what an offer is worth -----

  /** Whole minutes between the block and the deadline, at most a week's; none without a deadline. */
  function SpareMinutes(task: Task, block: Span): (n: int)
    ensures 0 <= n <= 7 * 24 * 60
    ensures task.deadline.None? ==> n == 0
    ensures task.deadline.Some? && n > 0 ==> block.end + n * MINUTE <= task.deadline.value
    ensures task.deadline.Some? && n < 7 * 24 * 60 ==> task.deadline.value < block.end + (n + 1) * MINUTE
  {
    if task.deadline.None? || task.deadline.value < block.end then 0
    else Min(Span(block.end, task.deadline.value).DurationMinutes(), 7 * 24 * 60)
  }

  /** Minutes of the interval left over that are too few for another session. */
  function UnusableMinutes(task: Task, v: Span, block: Span, prefs: Preferences): int {
    var left := v.DurationMinutes() - block.DurationMinutes();
    if LongEnough(task, left, prefs) then 0 else left
  }

  /** A minute of session weighs a hundred, a minute to spare one, an unusable minute takes one away. */
  function Worth(task: Task, v: Span, block: Span, prefs: Preferences): int {
    100 * block.DurationMinutes() + SpareMinutes(task, block) - UnusableMinutes(task, v, block, prefs)
  }

  /** The time of day asked for outweighs ten thousand minutes of session. */
  const PREFERENCE := 100 * 10_000

  function Weight(task: Task, v: TimeInterval, block: Span, setting: Setting): int {
    Worth(task, v, block, setting.prefs) + (if Preferred(task, v, block, setting) then PREFERENCE else 0)
  }

  /** The offer b of v comes before the offer c of w. */
  predicate Beats(task: Task, v: TimeInterval, b: Span, w: TimeInterval, c: Span, setting: Setting) {
    var mine, other := Weight(task, v, b, setting), Weight(task, w, c, setting);
    mine > other || (mine == other && (b.start < c.start || (b.start == c.start && b.end < c.end)))
  }

  /** An offer no other one comes before. */
  ghost predicate BestOffer(
    task: Task, remaining: int, available: seq<TimeInterval>, counter: SessionCounter, setting: Setting,
    v: TimeInterval, b: Span)
  {
    && v in available && Offers(task, remaining, v, b, counter, setting)
    && forall w, c | w in available && Offers(task, remaining, w, c, counter, setting) ::
         !Beats(task, w, c, v, b, setting)
  }

  /** The block of a best offer is booked; nothing only when nothing is offered. */
  ghost predicate BooksBestOffer(
    r: Option<TimeInterval>, task: Task, remaining: int, available: seq<TimeInterval>,
    counter: SessionCounter, setting: Setting)
  {
    if r.None? then forall v, b | v in available :: !Offers(task, remaining, v, b, counter, setting)
    else exists v :: BestOffer(task, remaining, available, counter, setting, v, r.value)
  }

  // ----- the candidates are the offers -----

  /** Where `_preferred_start` puts a session is its spot, and its flag says whether it is in time. */
  lemma PlaceIsSpot(task: Task, v: TimeInterval, minutes: int, setting: Setting)
    requires 0 < minutes && minutes <= v.DurationMinutes()
    ensures var place := PreferredPlace(v, minutes, Preference(task, setting.prefs), setting.zone);
      && Spot(task, v, place.0, minutes, setting)
      && (place.1 == 1 <==> Preferred(task, v, Span(place.0, place.0 + minutes * MINUTE), setting))
      && (place.1 == 0 || place.1 == 1)
  {
    hide AtWall, LocalDay;
    var place := PreferredPlace(v, minutes, Preference(task, setting.prefs), setting.zone);
    if place.1 == 1 {
      assert PreferredSpot(task, v, place.0, minutes, setting);
    } else {
      assert PreferredSpot(task, v, v.start, minutes, setting) <==>
             Preferred(task, v, Span(v.start, v.start + minutes * MINUTE), setting);
    }
  }

  lemma SpotIsUnique(task: Task, v: TimeInterval, a: int, b: int, minutes: int, setting: Setting)
    requires Spot(task, v, a, minutes, setting) && Spot(task, v, b, minutes, setting)
    ensures a == b
  {
    hide PreferredSpot;
  }

  lemma LongestIsUnique(task: Task, v: TimeInterval, a: int, b: int, remaining: int, prefs: Preferences)
    requires Longest(task, v, a, remaining, prefs) && Longest(task, v, b, remaining, prefs)
    ensures a == b
  {
    hide LegalMinutes;
  }

  /** `_splittable_session_minutes` or the whole remainder: the longest legal session, 0 when there is none. */
  lemma SessionIsLongest(task: Task, v: TimeInterval, remaining: int, setting: Setting)
    requires setting.Valid() && TaskValid(task) && remaining > 0
    ensures var minutes := SessionMinutes(task, remaining, v.DurationMinutes(), EffectiveMinimum(task, setting.prefs));
      && (minutes > 0 ==> Longest(task, v, minutes, remaining, setting.prefs))
      && (minutes <= 0 ==> forall m :: !Longest(task, v, m, remaining, setting.prefs))
  {
    SplittableIsLargest(remaining, v.DurationMinutes(), EffectiveMinimum(task, setting.prefs));
  }

  /** An interval gives a candidate exactly when it offers a block, and then for that block and with its weight. */
  lemma CandidateIsOffer(
    task: Task, remaining: int, v: TimeInterval, counter: SessionCounter, setting: Setting, b: Span)
    requires setting.Valid() && TaskValid(task) && remaining > 0
    ensures var c := CandidateIn(task, remaining, v, counter, setting);
      && (Offers(task, remaining, v, b, counter, setting) <==> c.Some? && c.value.block == b)
      && (c.Some? ==> c.value.Score() == Weight(task, v, c.value.block, setting))
  {
    hide Spot, Longest, Preferred, PreferredPlace, SessionMinutes, Count, LocalDay, AtWall, Preference;
    SessionIsLongest(task, v, remaining, setting);
    var minutes := SessionMinutes(task, remaining, v.DurationMinutes(), EffectiveMinimum(task, setting.prefs));
    var c := CandidateIn(task, remaining, v, counter, setting);
    if minutes > 0 {
      LongestFits(task, v, minutes, remaining, setting.prefs);
      PlaceIsSpot(task, v, minutes, setting);
      if Offers(task, remaining, v, b, counter, setting) {
        LongestIsUnique(task, v, minutes, b.DurationMinutes(), remaining, setting.prefs);
        SpotIsUnique(task, v, PreferredPlace(v, minutes, Preference(task, setting.prefs), setting.zone).0, b.start,
                     minutes, setting);
      }
    }
  }

  lemma LongestFits(task: Task, v: TimeInterval, minutes: int, remaining: int, prefs: Preferences)
    requires Longest(task, v, minutes, remaining, prefs)
    ensures minutes <= v.DurationMinutes()
  {
  }

  lemma {:induction false} CandidatesHold(
    task: Task, remaining: int, spans: seq<TimeInterval>, counter: SessionCounter, setting: Setting, v: TimeInterval)
    requires v in spans && CandidateIn(task, remaining, v, counter, setting).Some?
    ensures CandidateIn(task, remaining, v, counter, setting).value in
            Candidates(task, remaining, spans, counter, setting)
  {
    hide CandidateIn;
    var init, last := spans[..|spans| - 1], spans[|spans| - 1];
    if v in init {
      CandidatesHold(task, remaining, init, counter, setting, v);
    } else {
      assert v == last;
    }
  }

  /** One candidate is better than another exactly when its offer comes first. */
  lemma BetterIsBeats(
    task: Task, remaining: int, counter: SessionCounter, setting: Setting, a: Candidate, b: Candidate)
    requires setting.Valid() && TaskValid(task) && remaining > 0
    requires CandidateIn(task, remaining, a.interval, counter, setting) == Some(a)
    requires CandidateIn(task, remaining, b.interval, counter, setting) == Some(b)
    ensures Better(a, b) <==> Beats(task, a.interval, a.block, b.interval, b.block, setting)
  {
    hide CandidateIn, Weight, Offers;
    CandidateIsOffer(task, remaining, a.interval, counter, setting, a.block);
    CandidateIsOffer(task, remaining, b.interval, counter, setting, b.block);
  }

  /** The block booked is the best offer of the available intervals; none is booked only when there is no offer. */
  lemma {:induction false} BestOfferIsBooked(
    task: Task, remaining: int, managed: seq<TimeInterval>, counter: SessionCounter, setting: Setting)
    requires setting.Valid() && TaskValid(task) && remaining > 0
    ensures BooksBestOffer(NextBlock(task, remaining, managed, counter, setting), task, remaining,
                           Available(task, managed, setting), counter, setting)
  {
    hide Available, CandidateIn, Offers, Beats, Better, Candidates, Select;
    var available := Available(task, managed, setting);
    var candidates := Candidates(task, remaining, available, counter, setting);
    CandidatesFit(task, remaining, available, counter, setting);
    forall v, b | v in available && Offers(task, remaining, v, b, counter, setting)
      ensures exists c | c in candidates :: c.interval == v && c.block == b
    {
      CandidateIsOffer(task, remaining, v, counter, setting, b);
      CandidatesHold(task, remaining, available, counter, setting, v);
      assert CandidateIn(task, remaining, v, counter, setting).value in candidates;
      IntervalOfCandidate(task, remaining, v, counter, setting);
    }
    if candidates != [] {
      var k := SelectIsBest(candidates);
      var best := candidates[k];
      assert best in candidates;
      CandidateIsOffer(task, remaining, best.interval, counter, setting, best.block);
      forall w, c | w in available && Offers(task, remaining, w, c, counter, setting)
        ensures !Beats(task, w, c, best.interval, best.block, setting)
      {
        var other :| other in candidates && other.interval == w && other.block == c;
        var j :| 0 <= j < |candidates| && candidates[j] == other;
        BetterIsBeats(task, remaining, counter, setting, other, best);
      }
      assert BestOffer(task, remaining, available, counter, setting, best.interval, best.block);
    }
  }

  lemma IntervalOfCandidate(
    task: Task, remaining: int, v: TimeInterval, counter: SessionCounter, setting: Setting)
    requires CandidateIn(task, remaining, v, counter, setting).Some?
    ensures CandidateIn(task, remaining, v, counter, setting).value.interval == v
  {
    hide PreferredPlace, SessionMinutes, DeadlineBuffer;
  }

  // ----- what that means -----

  /** An offer in the time of day asked for that no offer outside it comes before. */
  ghost predicate Unbeaten(
    task: Task, remaining: int, available: seq<TimeInterval>, counter: SessionCounter, setting: Setting,
    v: TimeInterval, b: Span)
  {
    && v in available && Offers(task, remaining, v, b, counter, setting) && Preferred(task, v, b, setting)
    && forall w, c | w in available && Offers(task, remaining, w, c, counter, setting)
                     && !Preferred(task, w, c, setting) ::
         !Beats(task, w, c, v, b, setting)
  }

  /** Beaten by an offer outside the time of day asked for: so much better in minutes, spare time and rest. */
  lemma OutweighedIff(task: Task, v: TimeInterval, b: Span, w: TimeInterval, c: Span, setting: Setting)
    requires Preferred(task, v, b, setting) && !Preferred(task, w, c, setting)
    ensures var more := Worth(task, w, c, setting.prefs) - Worth(task, v, b, setting.prefs);
      Beats(task, w, c, v, b, setting) <==>
      || more > 1_000_000
      || (more == 1_000_000 && (c.start < b.start || (c.start == b.start && c.end < b.end)))
  {
    hide Preferred, Worth;
  }

  /** The block booked is in the time of day asked for exactly when some offer in it is not outweighed. */
  lemma PreferredIff(
    task: Task, remaining: int, managed: seq<TimeInterval>, counter: SessionCounter, setting: Setting)
    requires setting.Valid() && TaskValid(task) && remaining > 0
    requires NextBlock(task, remaining, managed, counter, setting).Some?
    ensures var available := Available(task, managed, setting);
      var r := NextBlock(task, remaining, managed, counter, setting).value;
      BooksPreferred(r, task, remaining, available, counter, setting) <==>
      exists v, b :: Unbeaten(task, remaining, available, counter, setting, v, b)
  {
    hide Available, Offers, Preferred, NextBlock, Worth;
    var available := Available(task, managed, setting);
    var r := NextBlock(task, remaining, managed, counter, setting).value;
    BestOfferIsBooked(task, remaining, managed, counter, setting);
    var u :| BestOffer(task, remaining, available, counter, setting, u, r);
    if BooksPreferred(r, task, remaining, available, counter, setting) {
      var v :| BestOffer(task, remaining, available, counter, setting, v, r) && Preferred(task, v, r, setting);
      assert Unbeaten(task, remaining, available, counter, setting, v, r);
    }
    if exists v, b :: Unbeaten(task, remaining, available, counter, setting, v, b) {
      var v, b :| Unbeaten(task, remaining, available, counter, setting, v, b);
      if !Preferred(task, u, r, setting) {
        assert !Beats(task, v, b, u, r, setting) && !Beats(task, u, r, v, b, setting);
        assert BestOffer(task, remaining, available, counter, setting, v, r);
      }
    }
  }

  /** The block booked is that of a best offer in the time of day asked for. */
  ghost predicate BooksPreferred(
    r: TimeInterval, task: Task, remaining: int, available: seq<TimeInterval>,
    counter: SessionCounter, setting: Setting)
  {
    exists v :: BestOffer(task, remaining, available, counter, setting, v, r) && Preferred(task, v, r, setting)
  }

  /** What can be gained in spare time and rest is less than a week and the minimum session. */
  lemma MinutesOutweigh(task: Task, v: TimeInterval, b: Span, w: TimeInterval, c: Span, prefs: Preferences)
    requires task.minSession > 0 && prefs.defaultMinSession > 0 && c.DurationMinutes() <= w.DurationMinutes()
    ensures Worth(task, w, c, prefs) - Worth(task, v, b, prefs) <
            100 * (c.DurationMinutes() - b.DurationMinutes()) + 7 * 24 * 60
            + Max(task.minSession, prefs.defaultMinSession)
  {
  }

  /**
    An offer in the time of day asked for is enough when no other is longer by so many minutes
    that they outweigh it, whatever their spare time and rest.
   */
  lemma PreferredTimeIsBooked(
    task: Task, remaining: int, managed: seq<TimeInterval>, counter: SessionCounter, setting: Setting,
    v: TimeInterval, b: Span)
    requires setting.Valid() && TaskValid(task) && remaining > 0
    requires var available := Available(task, managed, setting);
      && v in available && Offers(task, remaining, v, b, counter, setting) && Preferred(task, v, b, setting)
      && forall w, c | w in available && Offers(task, remaining, w, c, counter, setting) ::
           100 * (c.DurationMinutes() - b.DurationMinutes()) + 7 * 24 * 60
           + Max(task.minSession, setting.prefs.defaultMinSession) <= 1_000_000
    ensures var r := NextBlock(task, remaining, managed, counter, setting);
      r.Some? && BooksPreferred(r.value, task, remaining, Available(task, managed, setting), counter, setting)
  {
    hide Available, Offers, Preferred, NextBlock, Worth, Beats, BooksPreferred;
    var available := Available(task, managed, setting);
    BestOfferIsBooked(task, remaining, managed, counter, setting);
    forall w, c | w in available && Offers(task, remaining, w, c, counter, setting) && !Preferred(task, w, c, setting)
      ensures !Beats(task, w, c, v, b, setting)
    {
      OfferFits(task, remaining, w, c, counter, setting);
      MinutesOutweigh(task, v, b, w, c, setting.prefs);
      OutweighedIff(task, v, b, w, c, setting);
    }
    assert Unbeaten(task, remaining, available, counter, setting, v, b);
    PreferredIff(task, remaining, managed, counter, setting);
  }

  lemma OfferFits(task: Task, remaining: int, v: TimeInterval, b: Span, counter: SessionCounter, setting: Setting)
    requires setting.Valid() && TaskValid(task) && remaining > 0
    requires Offers(task, remaining, v, b, counter, setting)
    ensures 0 < b.DurationMinutes() <= v.DurationMinutes() && b.DurationMinutes() <= remaining
    ensures task.minSession > 0 && setting.prefs.defaultMinSession > 0
  {
    hide Spot, Count;
  }

  /** So a task of up to nine thousand minutes always gets the time of day asked for when an offer is in it. */
  lemma ShortTasksGetTheirTime(
    task: Task, remaining: int, managed: seq<TimeInterval>, counter: SessionCounter, setting: Setting,
    v: TimeInterval, b: Span)
    requires setting.Valid() && TaskValid(task) && 0 < remaining <= 9_000
    requires task.minSession <= 9_000 && setting.prefs.defaultMinSession <= 9_000
    requires v in Available(task, managed, setting) && Offers(task, remaining, v, b, counter, setting)
    requires Preferred(task, v, b, setting)
    ensures var r := NextBlock(task, remaining, managed, counter, setting);
      r.Some? && BooksPreferred(r.value, task, remaining, Available(task, managed, setting), counter, setting)
  {
    hide Available, Offers, Preferred, NextBlock, BooksPreferred;
    OfferFits(task, remaining, v, b, counter, setting);
    forall w, c | w in Available(task, managed, setting) && Offers(task, remaining, w, c, counter, setting)
      ensures c.DurationMinutes() <= remaining
    {
      OfferFits(task, remaining, w, c, counter, setting);
    }
    PreferredTimeIsBooked(task, remaining, managed, counter, setting, v, b);
  }

  /** For a task that may not be split, a session in the time of day asked for makes an offer in it. */
  lemma WholeSessionIsOffered(
    task: Task, remaining: int, v: TimeInterval, span: Span, counter: SessionCounter, setting: Setting)
    requires setting.Valid() && TaskValid(task) && remaining > 0 && !task.splittable
    requires Within(span, v) && span.end == span.start + remaining * MINUTE && Preferred(task, v, span, setting)
    requires Count(counter, task.id, LocalDay(setting.zone, v.start)) < task.maxPerDay
    ensures exists b :: Offers(task, remaining, v, b, counter, setting) && Preferred(task, v, b, setting)
  {
    hide Spot, Count, AtWall, LocalDay, PreferredPlace, Preferred;
    assert PreferredSpot(task, v, span.start, remaining, setting);
    PlaceIsSpot(task, v, remaining, setting);
    var start := PreferredPlace(v, remaining, Preference(task, setting.prefs), setting.zone).0;
    SpotIsPreferred(task, v, start, remaining, setting, span.start);
    assert Offers(task, remaining, v, Span(start, start + remaining * MINUTE), counter, setting);
  }

  lemma SpotIsPreferred(task: Task, v: TimeInterval, start: int, minutes: int, setting: Setting, t: int)
    requires Spot(task, v, start, minutes, setting) && PreferredSpot(task, v, t, minutes, setting)
    ensures Preferred(task, v, Span(start, start + minutes * MINUTE), setting)
  {
    hide Preferred;
  }

  /** Of two offers alike in three respects, the booked one is no worse in the fourth; of equal ones it is no later. */
  lemma OtherThingsEqual(task: Task, v: TimeInterval, b: Span, w: TimeInterval, c: Span, setting: Setting)
    requires !Beats(task, w, c, v, b, setting)
    requires Preferred(task, v, b, setting) == Preferred(task, w, c, setting)
    ensures var longer := c.DurationMinutes() - b.DurationMinutes();
      var freer := SpareMinutes(task, c) - SpareMinutes(task, b);
      var fuller := UnusableMinutes(task, v, b, setting.prefs) - UnusableMinutes(task, w, c, setting.prefs);
      && 100 * longer + freer + fuller <= 0
      && (freer == fuller == 0 ==> longer <= 0)
      && (longer == fuller == 0 ==> freer <= 0)
      && (longer == freer == 0 ==> fuller <= 0)
      && (longer == freer == fuller == 0 ==> b.start <= c.start)
  {
    hide Preferred, SpareMinutes, UnusableMinutes;
  }
}
