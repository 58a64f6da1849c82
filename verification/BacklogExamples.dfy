/**
  Two runs after which more is reserved for a task than its duration. One of a plan's two
  sessions fails, its half hour is given to another plan, and the retry takes it back; or two
  plans that no backlog entry is linked to are confirmed one after the other.
 */
module BacklogExamples {
  import opened Prelude
  import opened Sorting
  import opened Plans
  import opened PlanRuns
  import BacklogRuns

  /** One task of ninety minutes with an open backlog entry. */
  const TASKS: Tasks := map["t" := TaskInfo("u", 90)]

  const ENTRY := Entry("u", "t", Active, ByUser, NoDeadline, 90, None, None, None, None, 0)

  const EMPTY := Store([], map["b" := ENTRY], {})

  const HALVES := Request(
    "u", None, "g", Some("t"), Some("b"), "k1", ["s1", "s2"], [30, 30], "c", "cal")

  const REST := Request("u", None, "h", Some("t"), Some("b"), "k2", ["s3"], [60], "c", "cal")

  function HalfPlan(status: PlanStatus, first: PlanSession, second: PlanSession): Plan {
    Plan("u", "g", 1, status, Some("t"), Some("b"), "k1",
         [Target("s1", "c", "cal"), Target("s2", "c", "cal")], [first, second])
  }

  function RestPlan(status: PlanStatus, sessionStatus: SessionStatus): Plan {
    Plan("u", "h", 1, status, Some("t"), Some("b"), "k2",
         [Target("s3", "c", "cal")], [PlanSession("s3", 60, sessionStatus, None)])
  }

  function Waiting(id: string, status: SessionStatus): PlanSession {
    PlanSession(id, 30, status, None)
  }

  const MAPPED := PlanSession("s1", 30, SessionApplied, Some(EventMapping("c", "cal", "s1")))

  const HALF_LEFT := ENTRY.(remaining := 30, reason := PartiallyScheduled, origin := ByScheduler)

  const HALF_APPLIED := HalfPlan(PartiallyApplied, MAPPED, Waiting("s2", SessionFailed))

  // ----- sums of short lists -----

  lemma HalfMinutes(status: PlanStatus, first: PlanSession, second: PlanSession)
    ensures PlanReserved(HalfPlan(status, first, second)) ==
            if Reserves(status) then CountedMinutes(first) + CountedMinutes(second) else 0
    ensures SumBy(HalfPlan(status, first, second).sessions, AllMinutes) == first.minutes + second.minutes
    ensures SumBy(HalfPlan(status, first, second).sessions, Mapped) == Mapped(first) + Mapped(second)
  {
    SumOfTwo(first, second, CountedMinutes);
    SumOfTwo(first, second, AllMinutes);
    SumOfTwo(first, second, Mapped);
  }

  lemma RestMinutes(status: PlanStatus, sessionStatus: SessionStatus)
    ensures PlanReserved(RestPlan(status, sessionStatus)) ==
            if Reserves(status) then CountedMinutes(PlanSession("s3", 60, sessionStatus, None)) else 0
    ensures SumBy(RestPlan(status, sessionStatus).sessions, AllMinutes) == 60
  {
    SumOne(PlanSession("s3", 60, sessionStatus, None), CountedMinutes);
    SumOne(PlanSession("s3", 60, sessionStatus, None), AllMinutes);
  }

  lemma OwnTargets(status: PlanStatus, first: PlanSession, second: PlanSession)
    ensures TargetsOf(HalfPlan(status, first, second).targets, "s1") == [Target("s1", "c", "cal")]
    ensures TargetsOf(HalfPlan(status, first, second).targets, "s2") == [Target("s2", "c", "cal")]
  {
    var one, two := Target("s1", "c", "cal"), Target("s2", "c", "cal");
    assert [one, two][..1] == [one] && [one][..0] == [];
    assert TargetsOf([one], "s1") == TargetsOf([one][..0], "s1") + [one];
    assert TargetsOf([one], "s2") == TargetsOf([one][..0], "s2") + [];
  }

  // ----- the run, commit by commit -----

  const HALVES_PROPOSED := HalfPlan(Proposed, Waiting("s1", SessionProposed), Waiting("s2", SessionProposed))

  const HALVES_CONFIRMED := HalfPlan(Confirmed, Waiting("s1", SessionConfirmed), Waiting("s2", SessionConfirmed))

  lemma CreateHalves()
    ensures Next(EMPTY, TASKS, CreateStep(HALVES)) == EMPTY.(plans := [HALVES_PROPOSED])
  {
    assert HALVES.Valid();
    assert NewPlan(HALVES, 1) == HALVES_PROPOSED;
    assert WithKey([], "k1").None?;
  }

  lemma ConfirmHalves()
    ensures Next(EMPTY.(plans := [HALVES_PROPOSED]), TASKS, ConfirmStep(0, 0)) ==
            Store([HALVES_CONFIRMED], map["b" := HALF_LEFT], {})
  {
    var st := EMPTY.(plans := [HALVES_PROPOSED]);
    HalfMinutes(Proposed, Waiting("s1", SessionProposed), Waiting("s2", SessionProposed));
    HalfMinutes(Confirmed, Waiting("s1", SessionConfirmed), Waiting("s2", SessionConfirmed));
    SumOne(HALVES_PROPOSED, ReservedFor("t"));
    SumOne(HALVES_CONFIRMED, ReservedFor("t"));
    assert ConfirmedPlan(HALVES_PROPOSED) == HALVES_CONFIRMED;
    assert st.plans[0 := HALVES_CONFIRMED] == [HALVES_CONFIRMED];
    assert BacklogError(st, TASKS, HALVES_PROPOSED).None?;
    assert UpdatedEntry(ENTRY, 30, 0) == HALF_LEFT;
    assert st.entries["b" := HALF_LEFT] == map["b" := HALF_LEFT];
  }

  /** The store while the first plan is applied. */
  function During(p: Plan, events: set<Event>): Store {
    Store([p], map["b" := HALF_LEFT], events)
  }

  lemma BeginHalves()
    ensures Next(During(HALVES_CONFIRMED, {}), TASKS, BeginStep(0, {"c"})) ==
            During(HalfPlan(Applying, Waiting("s1", SessionApplying), Waiting("s2", SessionApplying)), {})
  {
    OwnTargets(Confirmed, Waiting("s1", SessionConfirmed), Waiting("s2", SessionConfirmed));
    assert forall s | s in HALVES_CONFIRMED.sessions :: HasTarget(HALVES_CONFIRMED, s, {"c"});
    assert BegunAll(HALVES_CONFIRMED.sessions) == [Waiting("s1", SessionApplying), Waiting("s2", SessionApplying)];
  }

  const EVENT := Event("c", "cal", "s1")

  lemma AttemptFirst()
    ensures Next(During(HalfPlan(Applying, Waiting("s1", SessionApplying), Waiting("s2", SessionApplying)), {}), TASKS,
                 AttemptStep(0, 0, Saved)) ==
            During(HalfPlan(Applying, MAPPED, Waiting("s2", SessionApplying)), {EVENT})
  {
    OwnTargets(Applying, Waiting("s1", SessionApplying), Waiting("s2", SessionApplying));
    var p := HalfPlan(Applying, Waiting("s1", SessionApplying), Waiting("s2", SessionApplying));
    assert p.sessions[0 := MAPPED] == [MAPPED, Waiting("s2", SessionApplying)];
    assert [p][0 := HalfPlan(Applying, MAPPED, Waiting("s2", SessionApplying))] ==
           [HalfPlan(Applying, MAPPED, Waiting("s2", SessionApplying))];
  }

  lemma AttemptSecond()
    ensures Next(During(HalfPlan(Applying, MAPPED, Waiting("s2", SessionApplying)), {EVENT}), TASKS,
                 AttemptStep(0, 1, CallFailed(false))) ==
            During(HalfPlan(Applying, MAPPED, Waiting("s2", SessionFailed)), {EVENT})
  {
    OwnTargets(Applying, MAPPED, Waiting("s2", SessionApplying));
    var p := HalfPlan(Applying, MAPPED, Waiting("s2", SessionApplying));
    assert p.sessions[1 := Waiting("s2", SessionFailed)] == [MAPPED, Waiting("s2", SessionFailed)];
    assert [p][0 := HalfPlan(Applying, MAPPED, Waiting("s2", SessionFailed))] ==
           [HalfPlan(Applying, MAPPED, Waiting("s2", SessionFailed))];
  }

  lemma FinishHalves()
    ensures Next(During(HalfPlan(Applying, MAPPED, Waiting("s2", SessionFailed)), {EVENT}), TASKS, FinishStep(0)) ==
            During(HALF_APPLIED, {EVENT})
  {
    HalfMinutes(Applying, MAPPED, Waiting("s2", SessionFailed));
  }

  /** The store with the second plan. */
  function Both(p: Plan, q: Plan, entry: Entry): Store {
    Store([p, q], map["b" := entry], {EVENT})
  }

  lemma CreateRest()
    ensures Next(During(HALF_APPLIED, {EVENT}), TASKS, CreateStep(REST)) ==
            Both(HALF_APPLIED, RestPlan(Proposed, SessionProposed), HALF_LEFT)
  {
    assert REST.Valid();
    assert NewPlan(REST, 1) == RestPlan(Proposed, SessionProposed);
    assert [HALF_APPLIED][..0] == [];
    assert WithKey([HALF_APPLIED], "k2").None?;
  }

  lemma ConfirmRest()
    ensures Next(Both(HALF_APPLIED, RestPlan(Proposed, SessionProposed), HALF_LEFT), TASKS, ConfirmStep(1, 0)) ==
            Both(HALF_APPLIED, RestPlan(Confirmed, SessionConfirmed),
                 HALF_LEFT.(remaining := 0, status := Resolved, resolvedAt := Some(0)))
  {
    var p, q := RestPlan(Proposed, SessionProposed), RestPlan(Confirmed, SessionConfirmed);
    var st := Both(HALF_APPLIED, p, HALF_LEFT);
    RestMinutes(Proposed, SessionProposed);
    RestMinutes(Confirmed, SessionConfirmed);
    HalfMinutes(PartiallyApplied, MAPPED, Waiting("s2", SessionFailed));
    SumOfTwo(HALF_APPLIED, p, ReservedFor("t"));
    SumOfTwo(HALF_APPLIED, q, ReservedFor("t"));
    assert ConfirmedPlan(p) == q;
    assert st.plans[1 := q] == [HALF_APPLIED, q];
    assert BacklogError(st, TASKS, p).None?;
  }

  lemma RetryHalves(entry: Entry)
    ensures var q := RestPlan(Confirmed, SessionConfirmed);
      Next(Both(HALF_APPLIED, q, entry), TASKS, BeginStep(0, {"c"})) ==
      Both(HalfPlan(Applying, MAPPED, Waiting("s2", SessionApplying)), q, entry)
  {
    OwnTargets(PartiallyApplied, MAPPED, Waiting("s2", SessionFailed));
    assert HasTarget(HALF_APPLIED, Waiting("s2", SessionFailed), {"c"});
    assert forall s | s in HALF_APPLIED.sessions && s.mapping.None? :: s == Waiting("s2", SessionFailed);
    assert BegunAll(HALF_APPLIED.sessions) == [MAPPED, Waiting("s2", SessionApplying)];
  }

  function ApplySteps(): seq<Step> {
    [CreateStep(HALVES)] + [ConfirmStep(0, 0)] + [BeginStep(0, {"c"})] + [AttemptStep(0, 0, Saved)]
    + [AttemptStep(0, 1, CallFailed(false))] + [FinishStep(0)]
  }

  lemma AfterApply()
    ensures Run(EMPTY, TASKS, ApplySteps()) == During(HALF_APPLIED, {EVENT})
  {
    hide Next, During, HalfPlan;
    var s1 := [CreateStep(HALVES)];
    EmptyRun(EMPTY, TASKS);
    assert [] + [CreateStep(HALVES)] == s1;
    RunAppend(EMPTY, TASKS, [], CreateStep(HALVES));
    CreateHalves();
    RunAppend(EMPTY, TASKS, s1, ConfirmStep(0, 0));
    ConfirmHalves();
    assert During(HALVES_CONFIRMED, {}) == Store([HALVES_CONFIRMED], map["b" := HALF_LEFT], {}) by { DuringIs(); }
    var s2 := s1 + [ConfirmStep(0, 0)];
    RunAppend(EMPTY, TASKS, s2, BeginStep(0, {"c"}));
    BeginHalves();
    var s3 := s2 + [BeginStep(0, {"c"})];
    RunAppend(EMPTY, TASKS, s3, AttemptStep(0, 0, Saved));
    AttemptFirst();
    var s4 := s3 + [AttemptStep(0, 0, Saved)];
    RunAppend(EMPTY, TASKS, s4, AttemptStep(0, 1, CallFailed(false)));
    AttemptSecond();
    RunAppend(EMPTY, TASKS, s4 + [AttemptStep(0, 1, CallFailed(false))], FinishStep(0));
    FinishHalves();
  }

  lemma DuringIs()
    ensures During(HALVES_CONFIRMED, {}) == Store([HALVES_CONFIRMED], map["b" := HALF_LEFT], {})
  {
  }

  function RetrySteps(): seq<Step> {
    ApplySteps() + [CreateStep(REST)] + [ConfirmStep(1, 0)] + [BeginStep(0, {"c"})]
  }

  /** Reachable from an empty store with a valid entry: 120 minutes reserved for a task of 90. */
  lemma RetryCanExceedDuration()
    ensures BacklogRuns.Healthy(EMPTY, TASKS)
    ensures Reserved(Run(EMPTY, TASKS, RetrySteps()).plans, "t") == 120 > TASKS["t"].duration
  {
    hide Next, ApplySteps, Both, HalfPlan, RestPlan;
    AfterApply();
    RunAppend(EMPTY, TASKS, ApplySteps(), CreateStep(REST));
    CreateRest();
    RunAppend(EMPTY, TASKS, ApplySteps() + [CreateStep(REST)], ConfirmStep(1, 0));
    ConfirmRest();
    RunAppend(EMPTY, TASKS, ApplySteps() + [CreateStep(REST)] + [ConfirmStep(1, 0)], BeginStep(0, {"c"}));
    RetryHalves(HALF_LEFT.(remaining := 0, status := Resolved, resolvedAt := Some(0)));
    BothReserve(HALF_LEFT.(remaining := 0, status := Resolved, resolvedAt := Some(0)));
  }

  lemma BothReserve(entry: Entry)
    ensures var p := HalfPlan(Applying, MAPPED, Waiting("s2", SessionApplying));
      var q := RestPlan(Confirmed, SessionConfirmed);
      Reserved(Both(p, q, entry).plans, "t") == 120
  {
    var p, q := HalfPlan(Applying, MAPPED, Waiting("s2", SessionApplying)), RestPlan(Confirmed, SessionConfirmed);
    HalfMinutes(Applying, MAPPED, Waiting("s2", SessionApplying));
    RestMinutes(Confirmed, SessionConfirmed);
    SumOfTwo(p, q, ReservedFor("t"));
  }

  // ----- two plans without a backlog entry -----

  function UnlinkedRequest(group: string, key: string, id: string): Request {
    Request("u", None, group, Some("t"), None, key, [id], [60], "c", "cal")
  }

  function UnlinkedPlan(
    group: string, key: string, id: string, status: PlanStatus, sessionStatus: SessionStatus): Plan
  {
    Plan("u", group, 1, status, Some("t"), None, key,
         [Target(id, "c", "cal")], [PlanSession(id, 60, sessionStatus, None)])
  }

  function UnlinkedSteps(): seq<Step> {
    [CreateStep(UnlinkedRequest("g", "k1", "s1"))] + [CreateStep(UnlinkedRequest("h", "k2", "s2"))]
    + [ConfirmStep(0, 0)] + [ConfirmStep(1, 0)]
  }

  lemma UnlinkedCreated(st: Store, group: string, key: string, id: string)
    requires WithKey(st.plans, key).None?
    ensures Next(st, TASKS, CreateStep(UnlinkedRequest(group, key, id))) ==
            st.(plans := st.plans + [UnlinkedPlan(group, key, id, Proposed, SessionProposed)])
  {
    var req := UnlinkedRequest(group, key, id);
    assert req.Valid();
    assert NewPlan(req, 1) == UnlinkedPlan(group, key, id, Proposed, SessionProposed);
  }

  lemma UnlinkedConfirmed(st: Store, i: nat, group: string, key: string, id: string)
    requires i < |st.plans| && st.plans[i] == UnlinkedPlan(group, key, id, Proposed, SessionProposed)
    ensures Next(st, TASKS, ConfirmStep(i, 0)) ==
            st.(plans := st.plans[i := UnlinkedPlan(group, key, id, Confirmed, SessionConfirmed)])
  {
    assert ConfirmedPlan(st.plans[i]) == UnlinkedPlan(group, key, id, Confirmed, SessionConfirmed);
  }

  lemma AfterConfirmations()
    ensures Run(EMPTY, TASKS, UnlinkedSteps()).plans ==
            [UnlinkedPlan("g", "k1", "s1", Confirmed, SessionConfirmed),
             UnlinkedPlan("h", "k2", "s2", Confirmed, SessionConfirmed)]
  {
    hide Next, UnlinkedRequest;
    var p, q := UnlinkedPlan("g", "k1", "s1", Proposed, SessionProposed),
                UnlinkedPlan("h", "k2", "s2", Proposed, SessionProposed);
    var s1 := [CreateStep(UnlinkedRequest("g", "k1", "s1"))];
    var s2 := s1 + [CreateStep(UnlinkedRequest("h", "k2", "s2"))];
    EmptyRun(EMPTY, TASKS);
    RunAppend(EMPTY, TASKS, [], CreateStep(UnlinkedRequest("g", "k1", "s1")));
    UnlinkedCreated(EMPTY, "g", "k1", "s1");
    assert [] + s1 == s1 && EMPTY.plans + [p] == [p];
    RunAppend(EMPTY, TASKS, s1, CreateStep(UnlinkedRequest("h", "k2", "s2")));
    assert [p][..0] == [] && WithKey([p], "k2").None?;
    UnlinkedCreated(EMPTY.(plans := [p]), "h", "k2", "s2");
    assert [p] + [q] == [p, q];
    RunAppend(EMPTY, TASKS, s2, ConfirmStep(0, 0));
    UnlinkedConfirmed(EMPTY.(plans := [p, q]), 0, "g", "k1", "s1");
    RunAppend(EMPTY, TASKS, s2 + [ConfirmStep(0, 0)], ConfirmStep(1, 0));
    UnlinkedConfirmed(Run(EMPTY, TASKS, s2 + [ConfirmStep(0, 0)]), 1, "h", "k2", "s2");
  }

  /** By two confirmations alone: 120 minutes reserved for a task of 90. */
  lemma UnlinkedCanExceedDuration()
    ensures Reserved(Run(EMPTY, TASKS, UnlinkedSteps()).plans, "t") == 120 > TASKS["t"].duration
  {
    hide Run, UnlinkedSteps;
    AfterConfirmations();
    var p, q := UnlinkedPlan("g", "k1", "s1", Confirmed, SessionConfirmed),
                UnlinkedPlan("h", "k2", "s2", Confirmed, SessionConfirmed);
    SumOne(p.sessions[0], CountedMinutes);
    SumOne(q.sessions[0], CountedMinutes);
    SumOfTwo(p, q, ReservedFor("t"));
  }
}
