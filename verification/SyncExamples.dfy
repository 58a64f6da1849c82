/**
  Runs that bound the convergence theorems: an order that leaves moves pending and stale although
  session and snapshot agree, and a pull that frees one of them again; a move of broken minutes
  that blocks even the oldest-first order; and a deletion after which session and snapshot
  disagree.
 */
module SyncExamples {
  import opened Prelude
  import opened Intervals
  import opened Policy
  import opened Sync
  import opened SyncConvergence
  import opened SyncMissing
  import opened SyncOrder

  const INFO := PlanInfo(["m"], Span(0, DAY), "UTC")

  /** The event shown for one hour from `start`. */
  function ShownAt(start: int, tag: string): Snapshot {
    Snapshot(
      "e", "c", true, false, Some(Stamp(start, 0)), Some(Stamp(start + HOUR, 0)), Some("UTC"), Some(tag), None, None)
  }

  function Applied(snapshot: Snapshot): Mapping {
    Mapping("c", "e", Synced, Some(snapshot), snapshot.etag, None)
  }

  /** A session of one hour, applied to the calendar and not yet pulled. */
  const INITIAL := Store(
    map["m" := Session(1, Span(0, HOUR), 60)],
    map["m" := Applied(ShownAt(0, "a"))],
    [], None, [], [])

  function MoveChange(before: Snapshot, after: Snapshot): Change {
    Change("m", Moved, before, after, Pending, [])
  }

  /** Pulling the event at a new place appends a move. */
  lemma PullMove(s: Store, before: Snapshot, start: int, tag: string)
    requires s.mappings == map["m" := Applied(before)] && "m" in s.sessions
    requires before.eventId == "e" && before.calendarId == "c" && before.Present()
    requires Shown(before).start != start
    requires forall c | c in s.changes :: c.new_ != ShownAt(start, tag)
    ensures Pull(s, "m", Fetched(ShownAt(start, tag)), INFO) ==
            s.(mappings := map["m" := Applied(ShownAt(start, tag))],
               changes := s.changes + [MoveChange(before, ShownAt(start, tag))])
  {
    var current := ShownAt(start, tag);
    assert ChangeKind(before, current) == Some(Moved);
    assert !AlreadyRecorded(s.changes, "m", before, current);
    assert map["m" := Applied(before)]["m" := Applied(current)] == map["m" := Applied(current)];
  }

  /** The event goes away, comes back, goes elsewhere; only the last move is processed at once. */
  const STUCK_STEPS := [
    PullStep("m", Fetched(ShownAt(HOUR, "b"))),
    PullStep("m", Fetched(ShownAt(0, "c"))),
    PullStep("m", Fetched(ShownAt(2 * HOUR, "d"))),
    ProcessStep(2)]

  /** The state after the three pulls. */
  const PULLED := Store(
    INITIAL.sessions,
    map["m" := Applied(ShownAt(2 * HOUR, "d"))],
    [MoveChange(ShownAt(0, "a"), ShownAt(HOUR, "b")),
     MoveChange(ShownAt(HOUR, "b"), ShownAt(0, "c")),
     MoveChange(ShownAt(0, "c"), ShownAt(2 * HOUR, "d"))],
    None, [], [])

  lemma ThreePulls()
    ensures Run(INITIAL, STUCK_STEPS[..3], INFO) == PULLED
  {
    hide Pull;
    PullMove(INITIAL, ShownAt(0, "a"), HOUR, "b");
    var s1 := Pull(INITIAL, "m", Fetched(ShownAt(HOUR, "b")), INFO);
    PullMove(s1, ShownAt(HOUR, "b"), 0, "c");
    var s2 := Pull(s1, "m", Fetched(ShownAt(0, "c")), INFO);
    PullMove(s2, ShownAt(0, "c"), 2 * HOUR, "d");
    assert STUCK_STEPS[..3][..2] == STUCK_STEPS[..2] && STUCK_STEPS[..2][..1] == STUCK_STEPS[..1];
    assert STUCK_STEPS[..1][..0] == [];
    assert Run(INITIAL, STUCK_STEPS[..1], INFO) == s1;
    assert Run(INITIAL, STUCK_STEPS[..2], INFO) == s2;
  }

  /** A move that is processed leaves the mapping and the other changes as they are. */
  lemma {:induction false} AfterMove(s: Store, i: nat, end: Store)
    requires i < |s.changes| && s.changes[i].mapping == "m" && Logged(s.changes[i]) && IsMove(s.changes[i])
    requires Unprocessed(s.changes[i]) && Process(s, i, INFO) == Ok(end)
    ensures "m" in end.sessions && end.mappings == s.mappings
    ensures end.sessions["m"].span == Shown(s.changes[i].new_)
    ensures |end.changes| == |s.changes|
    ensures end.changes == s.changes[i := s.changes[i].(status := Processed, actions := end.changes[i].actions)]
  {
    hide Decide, ApplyAll;
    DecidedIsMapped(s, i, INFO);
    ProcessEffect(s, i, INFO);
  }

  lemma AfterStuckSteps()
    ensures Process(PULLED, 2, INFO) == Ok(Run(INITIAL, STUCK_STEPS, INFO))
  {
    hide Process, Pull;
    ThreePulls();
    assert STUCK_STEPS[..|STUCK_STEPS| - 1] == STUCK_STEPS[..3];
    MoveAppliesIff(PULLED, 2, INFO);
  }

  /** Out of order, moves can stay pending and stale while session and snapshot agree. */
  lemma SomeOrdersLeaveMovesPending()
    ensures Agrees(INITIAL, "m", INFO) && NeverMissing(STUCK_STEPS, "m")
    ensures var end := Run(INITIAL, STUCK_STEPS, INFO);
      && "m" in end.sessions && "m" in end.mappings
      && AllMovesStale(end, "m") && InAgreement(end, "m", INFO)
      && |end.changes| == 3
      && end.changes[0].status == Pending && Process(end, 0, INFO).Err?
      && end.changes[1].status == Pending && Process(end, 1, INFO).Err?
  {
    hide Process, Run;
    AfterStuckSteps();
    var end := Run(INITIAL, STUCK_STEPS, INFO);
    AfterMove(PULLED, 2, end);
    StaleChangesNothing(end, 0, INFO);
    StaleChangesNothing(end, 1, INFO);
  }

  /** The event is then found where the session began, and that move is processed. */
  const FREEING_STEPS := [PullStep("m", Fetched(ShownAt(0, "e"))), ProcessStep(3)]

  lemma AfterFreeingSteps(s: Store)
    requires "m" in s.sessions && s.sessions["m"].span == Span(2 * HOUR, 3 * HOUR) && s.mappings == PULLED.mappings
    requires |s.changes| == 3 && forall j | 0 <= j < 3 :: s.changes[j].new_ == PULLED.changes[j].new_
    ensures var end := Run(s, FREEING_STEPS, INFO);
      && "m" in end.sessions && "m" in end.mappings && end.mappings["m"].status == Synced
      && end.sessions["m"].span == Span(0, HOUR)
      && |end.changes| == 4 && end.changes[0] == s.changes[0]
  {
    hide Process, Pull;
    PullMove(s, ShownAt(2 * HOUR, "d"), 0, "e");
    var pulled := Pull(s, "m", Fetched(ShownAt(0, "e")), INFO);
    assert FREEING_STEPS[..1][..0] == [] && FREEING_STEPS[..|FREEING_STEPS| - 1] == FREEING_STEPS[..1];
    assert Run(s, FREEING_STEPS[..1], INFO) == pulled;
    MoveAppliesIff(pulled, 3, INFO);
    AfterMove(pulled, 3, Run(s, FREEING_STEPS, INFO));
  }

  /** After a further pull the first of the stale moves can be processed. */
  lemma APullCanFree()
    ensures var end := Run(Run(INITIAL, STUCK_STEPS, INFO), FREEING_STEPS, INFO);
      && |end.changes| == 4 && end.changes[0] == PULLED.changes[0] && Process(end, 0, INFO).Ok?
  {
    hide Process, Run;
    AfterStuckSteps();
    var stuck := Run(INITIAL, STUCK_STEPS, INFO);
    AfterMove(PULLED, 2, stuck);
    AfterFreeingSteps(stuck);
    MoveAppliesIff(Run(stuck, FREEING_STEPS, INFO), 0, INFO);
  }

  // ----- a move of broken minutes -----

  /** The event at a new place, for a minute and a half. */
  const BROKEN := Snapshot(
    "e", "c", true, false, Some(Stamp(HOUR, 0)), Some(Stamp(HOUR + MINUTE + MINUTE / 2, 0)), Some("UTC"), Some("b"),
    None, None)

  const BROKEN_STEPS := [PullStep("m", Fetched(BROKEN)), ProcessStep(0)]

  const BROKEN_PULLED := Store(
    INITIAL.sessions, map["m" := Applied(BROKEN)], [MoveChange(ShownAt(0, "a"), BROKEN)], None, [], [])

  lemma PullBroken()
    ensures Run(INITIAL, BROKEN_STEPS[..1], INFO) == BROKEN_PULLED
  {
    assert ChangeKind(ShownAt(0, "a"), BROKEN) == Some(Moved);
    assert INITIAL.mappings["m" := Applied(BROKEN)] == map["m" := Applied(BROKEN)];
    assert Pull(INITIAL, "m", Fetched(BROKEN), INFO) == BROKEN_PULLED;
    assert BROKEN_STEPS[..1][..0] == [];
  }

  /** Oldest first, and still one move stays pending: it is not stale, but it cannot be applied. */
  lemma BrokenMinutesBlock()
    ensures Agrees(INITIAL, "m", INFO) && NeverMissing(BROKEN_STEPS, "m")
    ensures var end := Run(INITIAL, BROKEN_STEPS, INFO);
      && "m" in end.sessions && "m" in end.mappings
      && |end.changes| == 1 && end.changes[0].status == Pending && !StaleMove(end.changes[0], end, "m")
      && Process(end, 0, INFO).Err? && !InAgreement(end, "m", INFO)
  {
    hide Process, Pull;
    PullBroken();
    assert BROKEN_STEPS[..|BROKEN_STEPS| - 1] == BROKEN_STEPS[..1];
    MoveAppliesIff(BROKEN_PULLED, 0, INFO);
    assert Run(INITIAL, BROKEN_STEPS, INFO) == BROKEN_PULLED;
  }

  // ----- a deletion -----

  const GONE := Snapshot("e", "c", false, false, None, None, None, None, None, Some("not_found"))

  const DELETED_STEPS := [
    PullStep("m", EventNotFound),
    PullStep("m", Fetched(ShownAt(HOUR, "b"))),
    ProcessStep(0),
    ProcessStep(1)]

  const DELETED := Store(
    INITIAL.sessions,
    map["m" := Applied(ShownAt(HOUR, "b"))],
    [Change("m", Deleted, ShownAt(0, "a"), GONE, Pending, []),
     Change("m", Created, GONE, ShownAt(HOUR, "b"), Pending, [])],
    None, [], [])

  lemma TwoPulls()
    ensures Run(INITIAL, DELETED_STEPS[..2], INFO) == DELETED
  {
    var s1 := Pull(INITIAL, "m", EventNotFound, INFO);
    assert ChangeKind(ShownAt(0, "a"), GONE) == Some(Deleted);
    assert s1.changes == [Change("m", Deleted, ShownAt(0, "a"), GONE, Pending, [])];
    assert s1.mappings["m"].snapshot == Some(GONE);
    var current := ShownAt(HOUR, "b");
    assert ChangeKind(GONE, current) == Some(Created);
    assert !AlreadyRecorded(s1.changes, "m", GONE, current);
    var s2 := Pull(s1, "m", Fetched(current), INFO);
    assert s2.mappings == map["m" := Applied(current)];
    assert s2.changes == DELETED.changes;
    assert DELETED_STEPS[..2][..1] == DELETED_STEPS[..1] && DELETED_STEPS[..1][..0] == [];
    assert Run(INITIAL, DELETED_STEPS[..1], INFO) == s1;
  }

  /** Processing the deletion and the re-creation moves nothing. */
  lemma ProcessDeletion()
    ensures Process(DELETED, 0, INFO).Ok?
    ensures var s := Process(DELETED, 0, INFO).value;
      && s.sessions == INITIAL.sessions && "m" in s.mappings
      && s.mappings["m"].snapshot == Some(ShownAt(HOUR, "b"))
      && |s.changes| == 2 && s.changes[0].status == Processed && s.changes[1] == DELETED.changes[1]
  {
    var decisions := [MarkMissing("m", false), RecordConflict(ExternalEventMissing, ["m"])];
    var aggregate := AggregateOf(DELETED, "m", INFO);
    KnownInExample(DELETED);
    assert Evaluate(aggregate, InputOf(DELETED.changes[0])) == Ok(decisions);
    var e := EffectsOf(DELETED, "m");
    assert decisions == [decisions[0], decisions[1]];
    assert decisions[..1] == [decisions[0]] && decisions[..1][..0] == [];
    assert FirstError(decisions[..1], "m", DELETED.sessions["m"], KnownIds(aggregate)).None?;
    assert ValidateDecisions(decisions, "m", DELETED.sessions["m"], KnownIds(aggregate)).None?;
    ConflictsKeepSession(e, [decisions[1]], 0);
    assert ApplyAll(e, decisions[..1], 0) == ApplyDecision(e, decisions[0], 0);
    assert ApplyAll(e, decisions, 0).session == e.session;
  }

  lemma ProcessRecreation(s: Store)
    requires s.sessions == INITIAL.sessions && "m" in s.mappings
    requires |s.changes| == 2 && s.changes[1] == DELETED.changes[1]
    ensures Process(s, 1, INFO).Ok?
    ensures var r := Process(s, 1, INFO).value;
      && r.sessions == s.sessions && r.mappings.Keys == s.mappings.Keys
      && r.mappings["m"].snapshot == s.mappings["m"].snapshot
      && |r.changes| == 2 && r.changes[0] == s.changes[0] && r.changes[1].status == Processed
  {
    var aggregate := AggregateOf(s, "m", INFO);
    KnownInExample(s);
    assert Evaluate(aggregate, InputOf(s.changes[1])) == Ok([Unsupported]);
    assert FirstError([Unsupported], "m", s.sessions["m"], KnownIds(aggregate)).None? by {
      assert [Unsupported][..0] == [];
    }
    assert ValidateDecisions([Unsupported], "m", s.sessions["m"], KnownIds(aggregate)).None?;
    ConflictsKeepSession(EffectsOf(s, "m"), [Unsupported], 1);
  }

  lemma KnownInExample(s: Store)
    requires s.sessions == INITIAL.sessions && "m" in s.mappings
    ensures "m" in KnownIds(AggregateOf(s, "m", INFO))
  {
    LiveSessionListed(s, INFO.order, "m");
    assert PolicySessionOf(s, "m").id == "m";
  }

  /** A deleted event that comes back elsewhere: every change processed, yet session and snapshot disagree. */
  lemma DeletionBreaksAgreement()
    ensures Agrees(INITIAL, "m", INFO)
    ensures var end := Run(INITIAL, DELETED_STEPS, INFO);
      && "m" in end.sessions && "m" in end.mappings
      && (forall c | c in end.changes :: c.status == Processed)
      && LastSnapshot(end, "m", INFO).Present()
      && end.sessions["m"].span != Shown(LastSnapshot(end, "m", INFO))
  {
    hide Process, Pull;
    TwoPulls();
    ProcessDeletion();
    var s := Process(DELETED, 0, INFO).value;
    ProcessRecreation(s);
    assert DELETED_STEPS[..3][..2] == DELETED_STEPS[..2];
    assert Run(INITIAL, DELETED_STEPS[..3], INFO) == s;
    assert DELETED_STEPS[..|DELETED_STEPS| - 1] == DELETED_STEPS[..3];
    var end := Run(INITIAL, DELETED_STEPS, INFO);
    forall c | c in end.changes ensures c.status == Processed {
      assert c == end.changes[0] || c == end.changes[1];
    }
  }

  /** The event is missing, and then the provider fails: the session is taken along by moves again. */
  lemma FailedPullBringsBack()
    ensures var missing := Pull(INITIAL, "m", EventNotFound, INFO);
      var failed := Pull(missing, "m", ProviderError, INFO);
      && Out(missing, "m") && !Out(failed, "m") && Taken(failed, "m")
      && failed.mappings["m"].snapshot == missing.mappings["m"].snapshot == Some(GONE)
  {
    var missing := Pull(INITIAL, "m", EventNotFound, INFO);
    assert ChangeKind(ShownAt(0, "a"), GONE) == Some(Deleted);
    assert missing.mappings["m"].snapshot == Some(GONE);
  }
}
