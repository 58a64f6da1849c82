/**
  A whole apply, from its first commit to its last, and the outcomes it reports: one for each
  session, which says what became of it in the stored plan and in the calendar.
 */
module Outcomes {
  import opened Prelude
  import opened Sorting
  import opened Plans
  import opened PlanRuns
  import opened ApplyRuns

  // ----- a whole apply -----

  /**
    The provider's part in the attempt for session k; a missing entry means the call failed
    before anything happened.
   */
  function AttemptOf(attempts: seq<Attempt>, k: nat): Attempt {
    if k < |attempts| then attempts[k] else CallFailed(false)
  }

  /** The store after the loop has passed the first n sessions. */
  function AttemptUpTo(st: Store, i: nat, attempts: seq<Attempt>, n: nat): Store {
    if n == 0 then st
    else
      var before := AttemptUpTo(st, i, attempts, n - 1);
      Kept(before, ApplySession(before, i, n - 1, AttemptOf(attempts, n - 1)))
  }

  /** `apply_schedule_plan` from its first commit to its last. */
  function ApplyWhole(st: Store, i: nat, usable: set<string>, attempts: seq<Attempt>): Result<Store, Error> {
    if i >= |st.plans| then Err(PlanNotFound)
    else if st.plans[i].status == Applied then Ok(st)
    else
      var begun := ApplyBegin(st, i, usable);
      if begun.Err? then begun
      else ApplyFinish(AttemptUpTo(begun.value, i, attempts, |st.plans[i].sessions|), i)
  }

  /** The loop leaves the plan applying, its ids in place, and the sessions ahead untouched. */
  lemma {:induction false} AttemptKeeps(st: Store, i: nat, attempts: seq<Attempt>, n: nat)
    requires i < |st.plans| && st.plans[i].status == Applying
    ensures var end := AttemptUpTo(st, i, attempts, n);
      && |end.plans| == |st.plans| && end.entries == st.entries
      && end.plans[i].status == Applying
      && end.plans[i].targets == st.plans[i].targets
      && |end.plans[i].sessions| == |st.plans[i].sessions|
      && (forall j :: 0 <= j < |st.plans[i].sessions| ==> end.plans[i].sessions[j].id == st.plans[i].sessions[j].id)
      && (forall j :: n <= j < |st.plans[i].sessions| ==> end.plans[i].sessions[j] == st.plans[i].sessions[j])
  {
    hide TargetsOf;
    if n > 0 {
      AttemptKeeps(st, i, attempts, n - 1);
    }
  }

  function AttemptSteps(i: nat, attempts: seq<Attempt>, n: nat): seq<Step> {
    if n == 0 then [] else AttemptSteps(i, attempts, n - 1) + [AttemptStep(i, n - 1, AttemptOf(attempts, n - 1))]
  }

  /** The commits of a whole apply. */
  function ApplySteps(i: nat, usable: set<string>, attempts: seq<Attempt>, n: nat): seq<Step> {
    [BeginStep(i, usable)] + AttemptSteps(i, attempts, n) + [FinishStep(i)]
  }

  lemma {:induction false} AttemptsAreRun(
    st: Store, tasks: Tasks, i: nat, usable: set<string>, attempts: seq<Attempt>, n: nat)
    requires ApplyBegin(st, i, usable).Ok?
    ensures Run(st, tasks, [BeginStep(i, usable)] + AttemptSteps(i, attempts, n)) ==
            AttemptUpTo(ApplyBegin(st, i, usable).value, i, attempts, n)
  {
    hide ApplyBegin, ApplySession, Run;
    if n == 0 {
      assert [] + [BeginStep(i, usable)] == [BeginStep(i, usable)] + [];
      RunAppend(st, tasks, [], BeginStep(i, usable));
      EmptyRun(st, tasks);
    } else {
      AttemptsAreRun(st, tasks, i, usable, attempts, n - 1);
      var before := [BeginStep(i, usable)] + AttemptSteps(i, attempts, n - 1);
      var step := AttemptStep(i, n - 1, AttemptOf(attempts, n - 1));
      assert [BeginStep(i, usable)] + AttemptSteps(i, attempts, n) == before + [step];
      RunAppend(st, tasks, before, step);
    }
  }

  /** A whole apply is a run of its single commits, so what every run keeps holds for it. */
  lemma ApplyIsRun(st: Store, tasks: Tasks, i: nat, usable: set<string>, attempts: seq<Attempt>)
    requires ApplyWhole(st, i, usable, attempts).Ok? && st.plans[i].status != Applied
    ensures ApplyWhole(st, i, usable, attempts).value ==
            Run(st, tasks, ApplySteps(i, usable, attempts, |st.plans[i].sessions|))
  {
    hide ApplyBegin, ApplyFinish, AttemptUpTo, Run;
    var n := |st.plans[i].sessions|;
    AttemptsAreRun(st, tasks, i, usable, attempts, n);
    RunAppend(st, tasks, [BeginStep(i, usable)] + AttemptSteps(i, attempts, n), FinishStep(i));
  }

  /** After a completed apply the status says exactly which sessions are mapped. */
  lemma CompletedApplyIsExact(st: Store, i: nat, usable: set<string>, attempts: seq<Attempt>)
    requires ApplyWhole(st, i, usable, attempts).Ok?
    requires st.plans[i].status != Applied && st.plans[i].sessions != []
    ensures var p := ApplyWhole(st, i, usable, attempts).value.plans[i];
      && (p.status == Applied <==> AllMapped(p))
      && (p.status == PartiallyApplied <==> SomeMapped(p) && !AllMapped(p))
      && (p.status == Failed <==> !SomeMapped(p))
  {
    hide ApplyFinish, AllMapped, SomeMapped, AttemptUpTo;
    var begun := ApplyBegin(st, i, usable).value;
    AttemptKeeps(begun, i, attempts, |st.plans[i].sessions|);
    FinishIsExact(AttemptUpTo(begun, i, attempts, |st.plans[i].sessions|), i);
  }

  // ----- outcomes -----

  datatype OutcomeKind = AlreadyApplied | NowApplied | NotApplied

  datatype Outcome = Outcome(sessionId: string, kind: OutcomeKind)

  function KindOf(attempt: Attempt): OutcomeKind {
    match attempt
    case Saved => NowApplied
    case SavedElsewhere => AlreadyApplied
    case _ => NotApplied
  }

  /** An outcome for each session that has a mapping. */
  function MappedOutcomes(sessions: seq<PlanSession>): seq<Outcome> {
    if sessions == [] then []
    else
      var last := sessions[|sessions| - 1];
      MappedOutcomes(sessions[..|sessions| - 1])
      + (if last.mapping.Some? then [Outcome(last.id, AlreadyApplied)] else [])
  }

  /** An outcome for each session that has none, in the order attempted. */
  function AttemptOutcomes(sessions: seq<PlanSession>, attempts: seq<Attempt>): seq<Outcome> {
    if sessions == [] then []
    else
      var n := |sessions| - 1;
      AttemptOutcomes(sessions[..n], attempts)
      + (if sessions[n].mapping.None? then [Outcome(sessions[n].id, KindOf(AttemptOf(attempts, n)))] else [])
  }

  function OutcomeIds(outcomes: seq<Outcome>): seq<string> {
    seq(|outcomes|, i requires 0 <= i < |outcomes| => outcomes[i].sessionId)
  }

  function SessionIds(sessions: seq<PlanSession>): seq<string> {
    seq(|sessions|, i requires 0 <= i < |sessions| => sessions[i].id)
  }

  /** Together the outcomes name every session once. */
  lemma {:induction false} OutcomesCover(sessions: seq<PlanSession>, attempts: seq<Attempt>)
    ensures multiset(OutcomeIds(MappedOutcomes(sessions) + AttemptOutcomes(sessions, attempts))) ==
            multiset(SessionIds(sessions))
  {
    if sessions != [] {
      var n := |sessions| - 1;
      var init, last := sessions[..n], sessions[n];
      hide OutcomeIds, KindOf, AttemptOf;
      OutcomesCover(init, attempts);
      OutcomeIdsConcat(MappedOutcomes(init), AttemptOutcomes(init, attempts));
      OutcomeIdsConcat(MappedOutcomes(sessions), AttemptOutcomes(sessions, attempts));
      assert SessionIds(sessions) == SessionIds(init) + [last.id];
      if last.mapping.Some? {
        OutcomeIdsConcat(MappedOutcomes(init), [Outcome(last.id, AlreadyApplied)]);
        OutcomeIdsOne(Outcome(last.id, AlreadyApplied));
        assert AttemptOutcomes(sessions, attempts) == AttemptOutcomes(init, attempts);
      } else {
        var outcome := Outcome(last.id, KindOf(AttemptOf(attempts, n)));
        OutcomeIdsConcat(AttemptOutcomes(init, attempts), [outcome]);
        OutcomeIdsOne(outcome);
        assert MappedOutcomes(sessions) == MappedOutcomes(init);
      }
    }
  }

  /** A plan with all sessions mapped reports each of them. */
  lemma {:induction false} AllMappedOutcomes(sessions: seq<PlanSession>)
    requires forall s | s in sessions :: IsMapped(s)
    ensures OutcomeIds(MappedOutcomes(sessions)) == SessionIds(sessions)
  {
    if sessions != [] {
      hide OutcomeIds;
      var init, last := sessions[..|sessions| - 1], sessions[|sessions| - 1];
      assert last in sessions && forall s | s in init :: s in sessions;
      AllMappedOutcomes(init);
      OutcomeIdsConcat(MappedOutcomes(init), [Outcome(last.id, AlreadyApplied)]);
      OutcomeIdsOne(Outcome(last.id, AlreadyApplied));
      assert SessionIds(sessions) == SessionIds(init) + [last.id];
    } else {
      assert OutcomeIds([]) == [] == SessionIds(sessions);
    }
  }

  lemma OutcomeIdsOne(outcome: Outcome)
    ensures OutcomeIds([outcome]) == [outcome.sessionId]
  {
  }

  lemma OutcomeIdsConcat(a: seq<Outcome>, b: seq<Outcome>)
    ensures OutcomeIds(a + b) == OutcomeIds(a) + OutcomeIds(b)
  {
  }

  /** Beginning keeps ids and mappings, so the outcomes are the same before and after it. */
  lemma {:induction false} BegunOutcomes(sessions: seq<PlanSession>, attempts: seq<Attempt>)
    ensures MappedOutcomes(BegunAll(sessions)) == MappedOutcomes(sessions)
    ensures AttemptOutcomes(BegunAll(sessions), attempts) == AttemptOutcomes(sessions, attempts)
  {
    if sessions != [] {
      BegunOutcomes(sessions[..|sessions| - 1], attempts);
      assert BegunAll(sessions)[..|sessions| - 1] == BegunAll(sessions[..|sessions| - 1]);
    }
  }

  // ----- what the outcomes say -----

  function EventOf(m: EventMapping): Event {
    Event(m.connection, m.calendarId, m.eventId)
  }

  /**
    Not applied: the session has no mapping and is failed. Applied now: it had no mapping, has
    one, and its event is in the calendar. Applied already: it had a mapping, or the mapping of
    someone else was found instead of saving one.
   */
  predicate Tells(kind: OutcomeKind, before: PlanSession, after: PlanSession, events: set<Event>) {
    && (kind == NotApplied <==> after.mapping.None?)
    && (kind == NotApplied ==> after.status == SessionFailed)
    && (kind == NowApplied <==> before.mapping.None? && after.mapping.Some? && after.status == SessionApplied)
    && (before.mapping.None? && after.mapping.Some? ==> EventOf(after.mapping.value) in events)
  }

  /** The outcome is that of session k. */
  predicate OutcomeAt(o: Outcome, before: seq<PlanSession>, after: seq<PlanSession>, events: set<Event>, k: int) {
    && 0 <= k < |before| && k < |after|
    && o.sessionId == before[k].id == after[k].id
    && Tells(o.kind, before[k], after[k], events)
  }

  ghost predicate HasOutcome(
    outcomes: seq<Outcome>, before: seq<PlanSession>, after: seq<PlanSession>, events: set<Event>, k: int)
  {
    exists o | o in outcomes :: OutcomeAt(o, before, after, events, k)
  }

  /** Every outcome is that of a session, and every session has one. */
  ghost predicate OutcomesTell(
    outcomes: seq<Outcome>, before: seq<PlanSession>, after: seq<PlanSession>, events: set<Event>)
  {
    && |before| == |after|
    && (forall o | o in outcomes :: exists k :: OutcomeAt(o, before, after, events, k))
    && forall k | 0 <= k < |before| :: HasOutcome(outcomes, before, after, events, k)
  }

  /** A plan being applied: each session without a mapping is waiting and has a target. */
  predicate ReadyToAttempt(p: Plan) {
    && p.status == Applying
    && forall s | s in p.sessions && s.mapping.None? :: TargetsOf(p.targets, s.id) != [] && s.status == SessionApplying
  }

  /** What the loop leaves of a session it has passed. */
  predicate Passed(p: Plan, q: Plan, events: set<Event>, attempts: seq<Attempt>, k: nat)
    requires k < |p.sessions| && k < |q.sessions|
  {
    var s := p.sessions[k];
    if s.mapping.Some? then q.sessions[k] == s
    else
      && TargetsOf(p.targets, s.id) != []
      && q.sessions[k] == Attempted(s, TargetEvent(p, s), AttemptOf(attempts, k))
      && (CreatesEvent(AttemptOf(attempts, k)) ==> TargetEvent(p, s) in events)
  }

  /** A turn of the loop leaves the sessions passed before as they are, and passes its own. */
  lemma TurnPasses(p: Plan, st: Store, i: nat, attempts: seq<Attempt>, n: nat)
    requires i < |st.plans| && st.plans[i].status == Applying && st.plans[i].targets == p.targets
    requires n < |p.sessions| == |st.plans[i].sessions| && st.plans[i].sessions[n] == p.sessions[n]
    requires p.sessions[n].mapping.None? ==>
      TargetsOf(p.targets, p.sessions[n].id) != [] && p.sessions[n].status == SessionApplying
    requires forall k | 0 <= k < n :: Passed(p, st.plans[i], st.events, attempts, k)
    ensures var next := Kept(st, ApplySession(st, i, n, AttemptOf(attempts, n)));
      && |next.plans| == |st.plans| && |next.plans[i].sessions| == |p.sessions|
      && forall k | 0 <= k <= n :: Passed(p, next.plans[i], next.events, attempts, k)
  {
    hide TargetsOf, Attempted, AttemptOf, CreatesEvent;
    var next := Kept(st, ApplySession(st, i, n, AttemptOf(attempts, n)));
    forall k | 0 <= k <= n ensures Passed(p, next.plans[i], next.events, attempts, k) {
      if k < n {
        assert Passed(p, st.plans[i], st.events, attempts, k);
      }
    }
  }

  lemma {:induction false} LoopPasses(st: Store, i: nat, attempts: seq<Attempt>, n: nat)
    requires i < |st.plans| && ReadyToAttempt(st.plans[i]) && n <= |st.plans[i].sessions|
    ensures var end := AttemptUpTo(st, i, attempts, n);
      && |end.plans| == |st.plans| && |end.plans[i].sessions| == |st.plans[i].sessions|
      && forall k | 0 <= k < n :: Passed(st.plans[i], end.plans[i], end.events, attempts, k)
  {
    hide TargetsOf, Passed, AttemptOf, ApplySession;
    AttemptKeeps(st, i, attempts, n);
    if n > 0 {
      LoopPasses(st, i, attempts, n - 1);
      AttemptKeeps(st, i, attempts, n - 1);
      assert st.plans[i].sessions[n - 1] in st.plans[i].sessions;
      TurnPasses(st.plans[i], AttemptUpTo(st, i, attempts, n - 1), i, attempts, n - 1);
    }
  }

  /** The outcome reported for session k. */
  function OutcomeFor(sessions: seq<PlanSession>, attempts: seq<Attempt>, k: nat): Outcome
    requires k < |sessions|
  {
    Outcome(sessions[k].id, if sessions[k].mapping.Some? then AlreadyApplied else KindOf(AttemptOf(attempts, k)))
  }

  predicate IsOutcomeFor(o: Outcome, sessions: seq<PlanSession>, attempts: seq<Attempt>, k: int) {
    0 <= k < |sessions| && o == OutcomeFor(sessions, attempts, k)
  }

  lemma {:induction false} OutcomesAre(sessions: seq<PlanSession>, attempts: seq<Attempt>)
    ensures forall o | o in MappedOutcomes(sessions) || o in AttemptOutcomes(sessions, attempts) ::
      exists k :: IsOutcomeFor(o, sessions, attempts, k)
    ensures forall k | 0 <= k < |sessions| ::
      || OutcomeFor(sessions, attempts, k) in MappedOutcomes(sessions)
      || OutcomeFor(sessions, attempts, k) in AttemptOutcomes(sessions, attempts)
  {
    hide KindOf, AttemptOf;
    if sessions != [] {
      var n := |sessions| - 1;
      var init := sessions[..n];
      OutcomesAre(init, attempts);
      forall o | o in MappedOutcomes(sessions) || o in AttemptOutcomes(sessions, attempts)
        ensures exists k :: IsOutcomeFor(o, sessions, attempts, k)
      {
        if o in MappedOutcomes(init) || o in AttemptOutcomes(init, attempts) {
          var k :| IsOutcomeFor(o, init, attempts, k);
          assert IsOutcomeFor(o, sessions, attempts, k);
        } else {
          assert IsOutcomeFor(o, sessions, attempts, n);
        }
      }
      forall k | 0 <= k < |sessions|
        ensures OutcomeFor(sessions, attempts, k) in MappedOutcomes(sessions)
             || OutcomeFor(sessions, attempts, k) in AttemptOutcomes(sessions, attempts)
      {
        if k < n {
          assert OutcomeFor(init, attempts, k) == OutcomeFor(sessions, attempts, k);
        }
      }
    }
  }

  /** The kind reported for an attempt tells what the attempt left. */
  lemma AttemptTells(s: PlanSession, e: Event, attempt: Attempt, events: set<Event>)
    requires s.mapping.None? && s.status == SessionApplying && (CreatesEvent(attempt) ==> e in events)
    ensures Tells(KindOf(attempt), s, Attempted(s, e, attempt), events)
    ensures Attempted(s, e, attempt).id == s.id
  {
  }

  lemma PassedTells(p: Plan, q: Plan, events: set<Event>, attempts: seq<Attempt>, k: nat)
    requires ReadyToAttempt(p) && k < |p.sessions| == |q.sessions| && Passed(p, q, events, attempts, k)
    ensures OutcomeAt(OutcomeFor(p.sessions, attempts, k), p.sessions, q.sessions, events, k)
  {
    hide TargetsOf, KindOf, Attempted, AttemptOf, CreatesEvent;
    var s := p.sessions[k];
    assert s in p.sessions;
    if s.mapping.None? {
      AttemptTells(s, TargetEvent(p, s), AttemptOf(attempts, k), events);
    }
  }

  /** The outcomes of the loop, with those of the mapped sessions, say of every session what became of it. */
  lemma LoopTells(st: Store, i: nat, attempts: seq<Attempt>)
    requires i < |st.plans| && ReadyToAttempt(st.plans[i])
    ensures var end := AttemptUpTo(st, i, attempts, |st.plans[i].sessions|);
      var before := st.plans[i].sessions;
      && i < |end.plans|
      && OutcomesTell(MappedOutcomes(before) + AttemptOutcomes(before, attempts),
                      before, end.plans[i].sessions, end.events)
  {
    hide Passed, OutcomeAt, OutcomeFor, AttemptUpTo;
    var p := st.plans[i];
    var n := |p.sessions|;
    LoopPasses(st, i, attempts, n);
    var end := AttemptUpTo(st, i, attempts, n);
    OutcomesAre(p.sessions, attempts);
    var outcomes := MappedOutcomes(p.sessions) + AttemptOutcomes(p.sessions, attempts);
    forall k | 0 <= k < n ensures HasOutcome(outcomes, p.sessions, end.plans[i].sessions, end.events, k) {
      PassedTells(p, end.plans[i], end.events, attempts, k);
      assert OutcomeFor(p.sessions, attempts, k) in outcomes;
    }
    forall o | o in outcomes ensures exists k :: OutcomeAt(o, p.sessions, end.plans[i].sessions, end.events, k) {
      var k :| IsOutcomeFor(o, p.sessions, attempts, k);
      PassedTells(p, end.plans[i], end.events, attempts, k);
    }
  }

  /** Beginning keeps ids and mappings, which is all that is asked of the sessions before. */
  lemma TellsFromBegun(
    outcomes: seq<Outcome>, before: seq<PlanSession>, after: seq<PlanSession>, events: set<Event>)
    requires OutcomesTell(outcomes, BegunAll(before), after, events)
    ensures OutcomesTell(outcomes, before, after, events)
  {
    forall o, k | OutcomeAt(o, BegunAll(before), after, events, k) ensures OutcomeAt(o, before, after, events, k) {
    }
    forall k | 0 <= k < |before| ensures HasOutcome(outcomes, before, after, events, k) {
      assert HasOutcome(outcomes, BegunAll(before), after, events, k);
    }
  }

  lemma BegunIsReady(st: Store, i: nat, usable: set<string>)
    requires ApplyBegin(st, i, usable).Ok?
    ensures var p := st.plans[i];
      var begun := ApplyBegin(st, i, usable).value;
      && |begun.plans| == |st.plans|
      && begun.plans[i] == p.(status := Applying, sessions := BegunAll(p.sessions))
      && ReadyToAttempt(begun.plans[i])
  {
    hide TargetsOf;
    var p := st.plans[i];
    forall s | s in BegunAll(p.sessions) && s.mapping.None?
      ensures TargetsOf(p.targets, s.id) != [] && s.status == SessionApplying
    {
      var k :| 0 <= k < |p.sessions| && BegunAll(p.sessions)[k] == s;
      assert p.sessions[k] in p.sessions && HasTarget(p, p.sessions[k], usable);
    }
  }

  /** After an apply the outcomes say of every session what became of it. */
  lemma ApplyTells(st: Store, i: nat, usable: set<string>, attempts: seq<Attempt>)
    requires ApplyWhole(st, i, usable, attempts).Ok? && st.plans[i].status != Applied
    ensures var next := ApplyWhole(st, i, usable, attempts).value;
      var before := st.plans[i].sessions;
      && i < |next.plans|
      && OutcomesTell(MappedOutcomes(before) + AttemptOutcomes(before, attempts),
                      before, next.plans[i].sessions, next.events)
  {
    hide ApplyBegin, ResultingStatus, OutcomesTell, AttemptUpTo, MappedOutcomes, AttemptOutcomes, ReadyToAttempt;
    var before := st.plans[i].sessions;
    var begun := ApplyBegin(st, i, usable).value;
    BegunIsReady(st, i, usable);
    LoopTells(begun, i, attempts);
    BegunOutcomes(before, attempts);
    var next := ApplyWhole(st, i, usable, attempts).value;
    TellsFromBegun(MappedOutcomes(before) + AttemptOutcomes(before, attempts), before, next.plans[i].sessions,
                   next.events);
  }

  /** So a completed apply ends applied exactly when no outcome says otherwise. */
  lemma AppliedIffNoneFailed(st: Store, i: nat, usable: set<string>, attempts: seq<Attempt>)
    requires ApplyWhole(st, i, usable, attempts).Ok?
    requires st.plans[i].status != Applied && st.plans[i].sessions != []
    ensures var outcomes := MappedOutcomes(st.plans[i].sessions) + AttemptOutcomes(st.plans[i].sessions, attempts);
      var next := ApplyWhole(st, i, usable, attempts).value;
      i < |next.plans| && (next.plans[i].status == Applied <==> forall o | o in outcomes :: o.kind != NotApplied)
  {
    hide MappedOutcomes, AttemptOutcomes, ApplyBegin, ApplyFinish, AttemptUpTo;
    ApplyTells(st, i, usable, attempts);
    CompletedApplyIsExact(st, i, usable, attempts);
    var before, p := st.plans[i].sessions, ApplyWhole(st, i, usable, attempts).value.plans[i];
    var events := ApplyWhole(st, i, usable, attempts).value.events;
    var outcomes := MappedOutcomes(before) + AttemptOutcomes(before, attempts);
    if p.status == Applied {
      forall o | o in outcomes ensures o.kind != NotApplied {
        var k :| OutcomeAt(o, before, p.sessions, events, k);
        assert p.sessions[k] in p.sessions;
      }
    }
    if forall o | o in outcomes :: o.kind != NotApplied {
      forall s | s in p.sessions ensures IsMapped(s) {
        var k :| 0 <= k < |p.sessions| && p.sessions[k] == s;
        assert HasOutcome(outcomes, before, p.sessions, events, k);
      }
    }
  }

  lemma {:induction false} MappedAreAlready(sessions: seq<PlanSession>)
    ensures forall o | o in MappedOutcomes(sessions) :: o.kind == AlreadyApplied
  {
    if sessions != [] {
      MappedAreAlready(sessions[..|sessions| - 1]);
    }
  }
}
