/**
  What revalidating a plan answers, from the sessions, the provider's intervals and every stored
  session of the user's plans: the query in between loses nothing and adds nothing.
 */
module StillFree {
  import opened Prelude
  import opened Sorting
  import opened Orders
  import opened Intervals
  import opened Revalidation
  import Plans
  import CalendarMapper

  // ----- the reservation query -----

  /** The plan holds time: it is confirmed, to be revalidated, being applied, or applied in whole or part. */
  predicate HoldsTime(status: Plans.PlanStatus) {
    status !in {Plans.Proposed, Plans.Failed, Plans.Obsolete}
  }

  /** A session of a plan of the user, not the one excluded, that holds time. */
  predicate InTheWay(r: StoredSession, user: string, exclude: Option<string>) {
    r.user == user && HoldsTime(r.status) && exclude != Some(r.planId)
  }

  /** Some instant of the session lies in the window. */
  ghost predicate Meets(r: StoredSession, window: Span) {
    exists t :: Holds(r.span, t) && window.start <= t < window.end
  }

  /** By start, then by end, then by id. */
  predicate InOrder(a: StoredSession, b: StoredSession) {
    || a.span.start < b.span.start
    || (a.span.start == b.span.start && a.span.end < b.span.end)
    || (a.span == b.span && StringLe(a.sessionId, b.sessionId))
  }

  lemma SelectedIff(r: StoredSession, user: string, window: Span, exclude: Option<string>)
    requires window.start < window.end
    ensures Selected(user, window, exclude)(r) <==> InTheWay(r, user, exclude) && Meets(r, window)
  {
    var t := Max(r.span.start, window.start);
    assert Selected(user, window, exclude)(r) ==> Holds(r.span, t) && window.start <= t < window.end;
  }

  /** The query refuses an empty window; it lists each session in the way that meets the window, in order. */
  lemma ReservationsListed(rows: seq<StoredSession>, user: string, window: Span, exclude: Option<string>)
    ensures ListReserved(rows, user, window, exclude).Some? <==> window.start < window.end
    ensures window.start < window.end ==>
      var listed := ListReserved(rows, user, window, exclude).value;
      && (forall r :: r in listed <==> r in rows && InTheWay(r, user, exclude) && Meets(r, window))
      && (forall r | r in listed :: multiset(listed)[r] == multiset(rows)[r])
      && (forall i, j :: 0 <= i < j < |listed| ==> InOrder(listed[i], listed[j]))
  {
    hide Meets, InTheWay, Filter;
    if window.start < window.end {
      var chosen := Selected(user, window, exclude);
      var listed := ListReserved(rows, user, window, exclude).value;
      SameElements(listed, Filter(rows, chosen));
      forall r ensures r in listed <==> r in rows && InTheWay(r, user, exclude) && Meets(r, window) {
        SelectedIff(r, user, window, exclude);
        FilterCount(rows, chosen, r);
      }
      forall r | r in listed ensures multiset(listed)[r] == multiset(rows)[r] {
        SelectedIff(r, user, window, exclude);
        FilterCount(rows, chosen, r);
      }
      StoredOrder();
      SortIsSorted(Filter(rows, chosen), StoredLe);
    }
  }

  lemma StoredOrder()
    ensures TotalPreorder(StoredLe)
    ensures forall a, b :: StoredLe(a, b) ==> InOrder(a, b)
  {
    hide StringLe;
    forall a, b, c: StoredSession
      ensures StoredLe(a, b) || StoredLe(b, a)
      ensures StoredLe(a, b) && StoredLe(b, c) ==> StoredLe(a, c)
    {
      StringOrder(a.sessionId, b.sessionId, c.sessionId);
    }
  }

  // ----- the answer -----

  /** The session keeps the break from a busy stretch of time, on either side. */
  predicate KeepsBreak(s: TimeInterval, start: int, end: int, breakMinutes: int) {
    var gap := Max(breakMinutes, 0) * MINUTE;
    end + gap <= s.start || s.end + gap <= start
  }

  /** From all the provider gave, and from every session in the way. */
  ghost predicate IsFree(
    s: CheckedSession, answer: Answer, rows: seq<StoredSession>, user: string, plan: string, breakMinutes: int)
  {
    && (answer.Answered? ==> forall i :: 0 <= i < |answer.items| ==>
          KeepsBreak(s.span, answer.items[i].start, answer.items[i].end, breakMinutes))
    && forall r | r in rows && InTheWay(r, user, Some(plan)) ::
         KeepsBreak(s.span, r.span.start, r.span.end, breakMinutes)
  }

  lemma KeepsBreakIff(s: TimeInterval, b: Busy, breakMinutes: int)
    ensures KeepsBreak(s, b.start, b.end, breakMinutes) <==> !Close(s, b, breakMinutes)
  {
  }

  lemma DisturbedByEither(s: CheckedSession, a: seq<Busy>, b: seq<Busy>, breakMinutes: int)
    ensures Disturbed(s, a + b, breakMinutes) <==> Disturbed(s, a, breakMinutes) || Disturbed(s, b, breakMinutes)
  {
    hide Close;
    assert forall x | x in a + b :: x in a || x in b;
    assert forall x | x in a || x in b :: x in a + b;
  }

  lemma ItemsDisturb(
    s: CheckedSession, items: seq<CalendarMapper.ProviderBusy>, provider: string, breakMinutes: int)
    ensures Disturbed(s, FromItems(items, provider), breakMinutes) <==>
            exists i :: 0 <= i < |items| && !KeepsBreak(s.span, items[i].start, items[i].end, breakMinutes)
  {
    hide Close, KeepsBreak;
    var intervals := FromItems(items, provider);
    forall i | 0 <= i < |items|
      ensures intervals[i] in intervals
      ensures KeepsBreak(s.span, items[i].start, items[i].end, breakMinutes) <==>
              !Close(s.span, intervals[i], breakMinutes)
    {
      KeepsBreakIff(s.span, intervals[i], breakMinutes);
    }
    if Disturbed(s, intervals, breakMinutes) {
      var b :| b in intervals && Close(s.span, b, breakMinutes);
      var i :| 0 <= i < |items| && intervals[i] == b;
    }
  }

  /** The stored sessions listed for the padded window disturb a session iff one in the way is too near. */
  lemma RowsDisturb(
    sessions: seq<CheckedSession>, s: CheckedSession, rows: seq<StoredSession>, listed: seq<StoredSession>,
    user: string, plan: string, paddingMinutes: int, breakMinutes: int)
    requires s in sessions && paddingMinutes >= 0
    requires Some(listed) ==
             ListReserved(rows, user, QueryWindow(sessions, paddingMinutes, breakMinutes).value, Some(plan))
    ensures Disturbed(s, FromReservations(listed), breakMinutes) <==>
            exists r | r in rows && InTheWay(r, user, Some(plan)) ::
              !KeepsBreak(s.span, r.span.start, r.span.end, breakMinutes)
  {
    hide QueryWindow, Close, KeepsBreak, Selected, Filter, Meets, InTheWay;
    var window := QueryWindow(sessions, paddingMinutes, breakMinutes).value;
    DisturbedRows(s, listed, breakMinutes);
    ReservationsListed(rows, user, window, Some(plan));
    forall r | r in rows && InTheWay(r, user, Some(plan))
      ensures KeepsBreak(s.span, r.span.start, r.span.end, breakMinutes) <==> !Close(s.span, BusyOf(r), breakMinutes)
      ensures Close(s.span, BusyOf(r), breakMinutes) ==> Meets(r, window)
    {
      KeepsBreakIff(s.span, BusyOf(r), breakMinutes);
      if Close(s.span, BusyOf(r), breakMinutes) {
        CloseIsInWindow(sessions, s, BusyOf(r), paddingMinutes, breakMinutes);
        WindowMeets(r, window);
      }
    }
  }

  lemma WindowMeets(r: StoredSession, window: Span)
    requires window.start < window.end && InWindow(window)(BusyOf(r))
    ensures Meets(r, window)
  {
    var t := Max(r.span.start, window.start);
    assert Holds(r.span, t) && window.start <= t < window.end;
  }

  lemma WindowIsPositive(sessions: seq<CheckedSession>, s: CheckedSession, paddingMinutes: int, breakMinutes: int)
    requires s in sessions && paddingMinutes >= 0
    ensures var window := QueryWindow(sessions, paddingMinutes, breakMinutes).value;
      window.start <= s.span.start < s.span.end <= window.end
  {
  }

  /**
    The whole of a revalidation: with no answer the provider failed, with failed calendars it
    answered in part; otherwise the plan is valid iff each session keeps the break from all the
    provider gave and from every session of the user's other plans that hold time. A session is
    reported iff it does not.
   */
  lemma RevalidationIsExact(
    sessions: seq<CheckedSession>, answer: Answer, provider: string, rows: seq<StoredSession>, user: string,
    plan: string, paddingMinutes: int, breakMinutes: int)
    requires sessions != [] && paddingMinutes >= 0
    requires answer.Answered? ==> !CalendarMapper.Refused(answer.items)
    ensures var window := QueryWindow(sessions, paddingMinutes, breakMinutes).value;
      var listed := ListReserved(rows, user, window, Some(plan));
      && listed.Some?
      && var conflicts := DetectConflicts(sessions, IntervalsOf(answer, provider, listed.value), breakMinutes);
         var outcome := OutcomeOf(answer, conflicts);
         && (forall id :: Reported(conflicts, id) <==>
              exists s | s in sessions :: s.id == id && !IsFree(s, answer, rows, user, plan, breakMinutes))
         && (outcome == Plans.ProviderFailure <==> answer.NoAnswer?)
         && (outcome == Plans.PartialFailure <==> answer.Answered? && answer.failedCalendars != [])
         && (outcome == Plans.Valid <==>
              && answer.Answered? && answer.failedCalendars == []
              && forall s | s in sessions :: IsFree(s, answer, rows, user, plan, breakMinutes))
  {
    hide DetectConflicts, QueryWindow, ListReserved, IntervalsOf, Disturbed, IsFree, Reported;
    var window := QueryWindow(sessions, paddingMinutes, breakMinutes).value;
    WindowIsPositive(sessions, sessions[0], paddingMinutes, breakMinutes);
    ReservationsListed(rows, user, window, Some(plan));
    var listed := ListReserved(rows, user, window, Some(plan)).value;
    var intervals := IntervalsOf(answer, provider, listed);
    IntervalsAreValid(answer, provider, listed);
    forall s | s in sessions
      ensures Disturbed(s, intervals, breakMinutes) <==> !IsFree(s, answer, rows, user, plan, breakMinutes)
    {
      FreeIff(sessions, s, answer, provider, rows, listed, user, plan, paddingMinutes, breakMinutes);
    }
    forall id ensures Reported(DetectConflicts(sessions, intervals, breakMinutes), id) <==>
      exists s | s in sessions :: s.id == id && !IsFree(s, answer, rows, user, plan, breakMinutes)
    {
      ReportedIff(sessions, intervals, breakMinutes, id);
    }
    NoConflictsIff(sessions, intervals, breakMinutes);
  }

  lemma IntervalsAreValid(answer: Answer, provider: string, listed: seq<StoredSession>)
    requires answer.Answered? ==> !CalendarMapper.Refused(answer.items)
    ensures ValidIntervals(IntervalsOf(answer, provider, listed))
  {
  }

  lemma FreeIff(
    sessions: seq<CheckedSession>, s: CheckedSession, answer: Answer, provider: string, rows: seq<StoredSession>,
    listed: seq<StoredSession>, user: string, plan: string, paddingMinutes: int, breakMinutes: int)
    requires s in sessions && paddingMinutes >= 0
    requires Some(listed) ==
             ListReserved(rows, user, QueryWindow(sessions, paddingMinutes, breakMinutes).value, Some(plan))
    ensures Disturbed(s, IntervalsOf(answer, provider, listed), breakMinutes) <==>
            !IsFree(s, answer, rows, user, plan, breakMinutes)
  {
    hide QueryWindow, ListReserved, Disturbed, KeepsBreak, InTheWay, FromItems, FromReservations;
    RowsDisturb(sessions, s, rows, listed, user, plan, paddingMinutes, breakMinutes);
    if answer.Answered? {
      ItemsDisturb(s, answer.items, provider, breakMinutes);
      DisturbedByEither(s, FromItems(answer.items, provider), FromReservations(listed), breakMinutes);
    } else {
      assert [] + FromReservations(listed) == FromReservations(listed);
    }
  }
}
