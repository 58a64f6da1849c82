/**
  What each backlog operation makes of an entry, and exactly when it succeeds; what a creation
  stores; and that a command touches one entry and nothing else.
 */
module BacklogEffects {
  import opened Prelude
  import opened Backlog
  import opened BacklogRuns
  import Plans

  /** Which reasons go with an origin. */
  lemma ReasonsOfOrigin(reason: Plans.BacklogReason, origin: Plans.BacklogOrigin)
    ensures Plans.ReasonFitsOrigin(reason, origin) <==>
      match origin
      case ByScheduler => reason != Plans.ManualDefer
      case ByUser =>
        reason in {Plans.NoDeadline, Plans.AwaitingUserConfirmation, Plans.ManualDefer, Plans.OtherReason}
      case _ => reason in {Plans.NoDeadline, Plans.AwaitingUserConfirmation, Plans.OtherReason}
  {
  }

  /** An open entry may become anything, a closed one nothing. */
  lemma TransitionsAre(current: Plans.BacklogStatus, target: Plans.BacklogStatus)
    ensures TransitionAllowed(current, target) <==> Plans.Open(current)
  {
  }

  /** Deferred with the dates given, one at least; a deferred entry keeps its dates. */
  lemma DeferMeans(e: Entry, duration: int, until: Option<int>, review: Option<int>, note: Option<string>)
    requires Plans.EntryValid(e, duration)
    ensures var r := Changed(e, duration, Defer(until, review, note));
      && (r.Ok? <==>
            && (e.status == Plans.Active ||
                (e.status == Plans.Deferred && e.deferredUntil == until && e.nextReviewAt == review))
            && (until.Some? || review.Some?) && NoteFits(e, note))
      && (r.Ok? ==> r.value == e.(status := Plans.Deferred, deferredUntil := until, nextReviewAt := review,
                                  note := if note.Some? then note else e.note))
  {
    hide Plans.Meaningful;
  }

  /** Active again, and nothing else but the date it was deferred to. */
  lemma ReactivateMeans(e: Entry, duration: int)
    requires Plans.EntryValid(e, duration)
    ensures var r := Changed(e, duration, Reactivate);
      && (r.Ok? <==> e.status == Plans.Deferred)
      && (r.Ok? ==> r.value == e.(status := Plans.Active, deferredUntil := None))
  {
    hide Plans.Meaningful;
  }

  /** The minutes given, within what the entry may have. */
  lemma UpdateMeans(e: Entry, duration: int, minutes: int)
    requires Plans.EntryValid(e, duration)
    ensures var r := Changed(e, duration, UpdateRemaining(minutes));
      && (r.Ok? <==> if Plans.Open(e.status) then 0 < minutes <= duration else minutes == 0)
      && (r.Ok? ==> r.value == e.(remaining := minutes))
  {
    hide Plans.Meaningful;
  }

  /** Resolved with nothing remaining; an entry resolved before stays as it is. */
  lemma ResolveMeans(e: Entry, duration: int, at: int, note: Option<string>)
    requires Plans.EntryValid(e, duration)
    ensures var r := Changed(e, duration, Resolve(at, note));
      && (r.Ok? <==> e.status == Plans.Resolved || (Plans.Open(e.status) && NoteFits(e, note)))
      && (r.Ok? ==> r.value == if e.status == Plans.Resolved then e
                               else e.(status := Plans.Resolved, remaining := 0, resolvedAt := Some(at),
                                       note := if note.Some? then note else e.note))
  {
    hide Plans.Meaningful;
  }

  /** Cancelled with nothing remaining; an entry cancelled before stays as it is. */
  lemma CancelMeans(e: Entry, duration: int, note: Option<string>)
    requires Plans.EntryValid(e, duration)
    ensures var r := Changed(e, duration, Cancel(note));
      && (r.Ok? <==> e.status == Plans.Cancelled || (Plans.Open(e.status) && NoteFits(e, note)))
      && (r.Ok? ==> r.value == if e.status == Plans.Cancelled then e
                               else e.(status := Plans.Cancelled, remaining := 0,
                                       note := if note.Some? then note else e.note))
  {
    hide Plans.Meaningful;
  }

  /** One attempt more, of an open entry. */
  lemma AttemptMeans(e: Entry, duration: int)
    requires Plans.EntryValid(e, duration)
    ensures var r := Changed(e, duration, RecordAttempt);
      && (r.Ok? <==> Plans.Open(e.status))
      && (r.Ok? ==> r.value == e.(attempts := e.attempts + 1))
  {
    hide Plans.Meaningful;
  }

  /** In a healthy store a command finds the user's entry or fails, and touches nothing else. */
  lemma ChangeMeans(st: Plans.Store, tasks: Plans.Tasks, id: string, user: string, op: Operation)
    requires Healthy(st, tasks)
    ensures var r := Change(st, tasks, id, user, op);
      && (r.Ok? <==> id in st.entries && st.entries[id].user == user
                     && Changed(st.entries[id], tasks[st.entries[id].taskId].duration, op).Ok?)
      && (r.Ok? ==> r.value == st.(entries := st.entries[
            id := Changed(st.entries[id], tasks[st.entries[id].taskId].duration, op).value]))
  {
    hide Changed, Plans.EntryValid, OneOpenPerTask, PositivePlans;
  }

  /** Some entry of the task is open. */
  ghost predicate HasOpen(st: Plans.Store, taskId: string, id: string) {
    id in st.entries && st.entries[id].taskId == taskId && Plans.Open(st.entries[id].status)
  }

  /** Alike in what a creation is given, but for the time of entering. */
  predicate SameWish(a: Entry, b: Entry) {
    a == b.(taskId := a.taskId, attempts := a.attempts, resolvedAt := a.resolvedAt)
  }

  /**
    A creation for a task with an open entry succeeds iff that entry is what is asked for, and
    stores nothing; otherwise it stores the entry, unattempted and unresolved, under a new id.
   */
  lemma CreationMeans(st: Plans.Store, tasks: Plans.Tasks, id: string, e: Entry)
    requires Healthy(st, tasks)
    ensures var r := CreateEntry(st, tasks, id, e);
      var stored := e.(attempts := 0, resolvedAt := None);
      && (forall x | HasOpen(st, e.taskId, x) ::
            && (r.Ok? <==> e.taskId in tasks && tasks[e.taskId].user == e.user && SameWish(st.entries[x], e))
            && (r.Ok? ==> r.value == st))
      && ((forall x :: !HasOpen(st, e.taskId, x)) ==>
            && (r.Ok? <==> && e.taskId in tasks && tasks[e.taskId].user == e.user && id !in st.entries
                           && Plans.EntryValid(stored, tasks[e.taskId].duration))
            && (r.Ok? ==> r.value == st.(entries := st.entries[id := stored])))
  {
    hide Plans.EntryValid, PositivePlans, EntryHealthy;
    forall x | HasOpen(st, e.taskId, x)
      ensures var r := CreateEntry(st, tasks, id, e);
        && (r.Ok? <==> e.taskId in tasks && tasks[e.taskId].user == e.user && SameWish(st.entries[x], e))
        && (r.Ok? ==> r.value == st)
    {
      assert OpenFor(st.entries[x], e.taskId);
    }
    if forall x :: !HasOpen(st, e.taskId, x) {
      forall x | x in st.entries ensures !OpenFor(st.entries[x], e.taskId) {
        assert !HasOpen(st, e.taskId, x);
      }
    }
  }

  /** Blanks, tabs and line ends are no note; one printable character is. */
  lemma NoteIsMeaningful(note: string)
    ensures (forall c | c in note :: c in {' ', '\t', '\n', '\r'}) ==> !Plans.Meaningful(Some(note))
    ensures (exists c | c in note :: '!' <= c <= '~') ==> Plans.Meaningful(Some(note))
    ensures !Plans.Meaningful(None)
  {
    if exists c | c in note :: '!' <= c <= '~' {
      var c :| c in note && '!' <= c <= '~';
      assert !Plans.WhiteSpace(c);
    }
  }
}
