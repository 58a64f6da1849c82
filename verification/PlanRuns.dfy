/**
  What every run of plan operations and external moves keeps: each plan follows the transition
  table with its content fixed but for the minutes of sessions in the calendar, versions of a
  group count up, and only the newest plan of a group is live.
 */
module PlanRuns {
  import opened Prelude
  import opened Sorting
  import opened Plans

  // ----- one plan from one state to the next -----

  /** The session keeps its identity, a mapping once saved, and its minutes unless it is in the calendar. */
  predicate SessionEvolves(a: PlanSession, b: PlanSession) {
    && b.id == a.id
    && (a.mapping.Some? ==> b.mapping == a.mapping)
    && (b.minutes == a.minutes || (b.mapping.Some? && b.minutes > 0))
  }

  ghost predicate SessionsEvolve(a: seq<PlanSession>, b: seq<PlanSession>) {
    |a| == |b| && forall k :: 0 <= k < |a| ==> SessionEvolves(a[k], b[k])
  }

  /** Everything but the status and the sessions' progress is fixed, and the status follows the table. */
  ghost predicate Evolves(p: Plan, q: Plan) {
    && q.(status := p.status, sessions := p.sessions) == p
    && SessionsEvolve(p.sessions, q.sessions)
    && (q.status == p.status || Allowed(p.status, q.status))
  }

  /** Every plan evolves, and at most one new plan is appended. */
  ghost predicate StoreEvolves(a: seq<Plan>, b: seq<Plan>) {
    && |a| <= |b| <= |a| + 1
    && forall i :: 0 <= i < |a| ==> Evolves(a[i], b[i])
  }

  lemma CreateEvolves(st: Store, tasks: Tasks, req: Request)
    requires Create(st, tasks, req).Ok?
    ensures StoreEvolves(st.plans, Create(st, tasks, req).value.0.plans)
  {
    hide RequestError, NewPlan;
    var next := Create(st, tasks, req).value.0;
    var previous := if req.group.Some? then LatestInGroup(st.plans, req.group.value) else None;
    if previous.Some? {
      assert Replaceable(st.plans[previous.value].status) ==>
        Evolves(st.plans[previous.value], Obsoleted(st.plans[previous.value]));
    }
  }

  lemma ConfirmEvolves(st: Store, tasks: Tasks, i: nat, now: int)
    ensures StoreEvolves(st.plans, Kept(st, Confirm(st, tasks, i, now)).plans)
  {
    hide BacklogError, UpdatedEntry, EntryValid, RemainingWork;
    if Confirm(st, tasks, i, now).Ok? {
      assert st.plans[i].status == Proposed ==> Evolves(st.plans[i], ConfirmedPlan(st.plans[i]));
    }
  }

  /** Every step is a legal evolution of every plan. */
  lemma {:induction false} NextEvolves(st: Store, tasks: Tasks, step: Step)
    ensures StoreEvolves(st.plans, Next(st, tasks, step).plans)
  {
    hide Create, Confirm, TargetsResolve, ResultingStatus;
    match step {
      case CreateStep(req) =>
        if Create(st, tasks, req).Ok? {
          CreateEvolves(st, tasks, req);
        }
      case ConfirmStep(i, now) =>
        ConfirmEvolves(st, tasks, i, now);
      case RevalidateStep(i, outcome) =>
      case ObsoleteStep(i) =>
        if MarkObsolete(st, i).Ok? {
          assert Replaceable(st.plans[i].status) ==> Evolves(st.plans[i], Obsoleted(st.plans[i]));
        }
      case _ => ApplyEvolves(st, tasks, step);
    }
  }

  lemma ApplyEvolves(st: Store, tasks: Tasks, step: Step)
    requires step.BeginStep? || step.AttemptStep? || step.FinishStep? || step.MoveStep?
    ensures StoreEvolves(st.plans, Next(st, tasks, step).plans)
  {
    hide TargetsResolve, TargetsOf, ResultingStatus;
    if step.BeginStep? && ApplyBegin(st, step.plan, step.usable).Ok? {
      var p := st.plans[step.plan];
      assert SessionsEvolve(p.sessions, BegunAll(p.sessions));
    }
  }

  /** Content and mappings stay over any run, and a terminal status is final. */
  ghost predicate Persists(p: Plan, q: Plan) {
    && q.(status := p.status, sessions := p.sessions) == p
    && SessionsEvolve(p.sessions, q.sessions)
    && (Terminal(p.status) ==> q.status == p.status)
  }

  /** The terminal statuses are those the transition table lets nothing follow. */
  lemma TerminalIff(status: PlanStatus)
    ensures Terminal(status) <==> forall next :: !Allowed(status, next)
  {
    assert Allowed(Proposed, Confirmed) && Allowed(Confirmed, Applying) && Allowed(RevalidationRequired, Confirmed);
    assert Allowed(Applying, Applied) && Allowed(PartiallyApplied, Applying);
  }

  /**
    Over any run: a plan's content never changes, but for the minutes of a session that is in
    the calendar; a session's mapping is never changed or lost; and applied, failed and
    obsolete plans stay so.
   */
  lemma {:induction false} RunPersists(st: Store, tasks: Tasks, steps: seq<Step>, i: nat)
    requires i < |st.plans|
    ensures |st.plans| <= |Run(st, tasks, steps).plans|
    ensures Persists(st.plans[i], Run(st, tasks, steps).plans[i])
  {
    hide Next;
    if steps != [] {
      RunPersists(st, tasks, steps[..|steps| - 1], i);
      var mid := Run(st, tasks, steps[..|steps| - 1]);
      NextEvolves(mid, tasks, steps[|steps| - 1]);
      var end := Run(st, tasks, steps);
      assert Evolves(mid.plans[i], end.plans[i]);
    }
  }

  // ----- runs, step by step -----

  lemma RunAppend(st: Store, tasks: Tasks, steps: seq<Step>, step: Step)
    ensures Run(st, tasks, steps + [step]) == Next(Run(st, tasks, steps), tasks, step)
  {
    assert (steps + [step])[..|steps|] == steps;
  }

  lemma EmptyRun(st: Store, tasks: Tasks)
    ensures Run(st, tasks, []) == st
  {
  }

  // ----- groups -----

  function InGroup(group: string): Plan -> int {
    (p: Plan) => Indicator(p.group == group)
  }

  function GroupSize(plans: seq<Plan>, group: string): int {
    SumBy(plans, InGroup(group))
  }

  predicate Dead(status: PlanStatus) {
    status == Obsolete || status == Failed
  }

  /** The next version of a group is one more than its plans so far. */
  ghost predicate Numbered(plans: seq<Plan>) {
    forall i :: 0 <= i < |plans| ==> plans[i].version == 1 + GroupSize(plans[..i], plans[i].group)
  }

  /** A plan with a later plan in its group is obsolete or failed. */
  ghost predicate OnlyNewestLives(plans: seq<Plan>) {
    forall i, j :: 0 <= i < j < |plans| && plans[i].group == plans[j].group ==> Dead(plans[i].status)
  }

  ghost predicate GroupsOk(plans: seq<Plan>) {
    Numbered(plans) && OnlyNewestLives(plans)
  }

  lemma {:induction false} GroupSizeBounds(plans: seq<Plan>, i: nat, group: string)
    requires i <= |plans|
    ensures 0 <= GroupSize(plans[..i], group) <= GroupSize(plans, group)
    decreases |plans|
  {
    if i < |plans| {
      GroupSizeBounds(plans[..|plans| - 1], i, group);
      assert plans[..|plans| - 1][..i] == plans[..i];
    } else {
      assert plans[..i] == plans;
      if plans != [] {
        GroupSizeBounds(plans[..|plans| - 1], |plans| - 1, group);
        assert plans[..|plans| - 1][..|plans| - 1] == plans[..|plans| - 1];
      }
    }
  }

  lemma GroupSizeStep(plans: seq<Plan>, i: nat, group: string)
    requires i < |plans|
    ensures GroupSize(plans[..i + 1], group) == GroupSize(plans[..i], group) + Indicator(plans[i].group == group)
  {
    assert plans[..i + 1][..i] == plans[..i];
  }

  ghost predicate IsLatest(plans: seq<Plan>, group: string, r: Option<nat>) {
    && (r.None? ==> GroupSize(plans, group) == 0)
    && (r.Some? ==> r.value < |plans| && plans[r.value].group == group)
    && (r.Some? ==> plans[r.value].version == GroupSize(plans, group))
    && forall j :: 0 <= j < |plans| && plans[j].group == group ==> r.Some? && j <= r.value
  }

  lemma IsLatestNext(init: seq<Plan>, p: Plan, group: string, earlier: Option<nat>)
    requires IsLatest(init, group, earlier)
    requires p.group == group ==> p.version == 1 + GroupSize(init, group)
    ensures IsLatest(init + [p], group, if p.group == group then Some(|init|) else earlier)
    ensures p.group == group && earlier.Some? ==> p.version > init[earlier.value].version
  {
    hide GroupSize;
    GroupSizeStep(init + [p], |init|, group);
    assert (init + [p])[..|init|] == init && (init + [p])[..|init| + 1] == init + [p];
  }

  /** The plan found for a group is the last one of the group, and its version is the size of the group. */
  lemma {:induction false} LatestIsLast(plans: seq<Plan>, group: string)
    requires Numbered(plans)
    ensures IsLatest(plans, group, LatestInGroup(plans, group))
  {
    if plans != [] {
      hide GroupSize, Numbered, LatestInGroup, IsLatest;
      var n := |plans| - 1;
      var earlier := LatestInGroup(plans[..n], group);
      LatestNext(plans, group);
      NumberedInit(plans);
      LatestIsLast(plans[..n], group);
      IsLatestNext(plans[..n], plans[n], group, earlier);
      assert plans == plans[..n] + [plans[n]];
    }
  }

  lemma LatestNext(plans: seq<Plan>, group: string)
    requires plans != []
    ensures var n := |plans| - 1;
      var earlier := LatestInGroup(plans[..n], group);
      LatestInGroup(plans, group) ==
      if plans[n].group != group then earlier
      else if earlier.None? || plans[n].version > plans[earlier.value].version then Some(n)
      else earlier
  {
  }

  lemma NumberedInit(plans: seq<Plan>)
    requires Numbered(plans) && plans != []
    ensures var n := |plans| - 1;
      Numbered(plans[..n]) && plans[n].version == 1 + GroupSize(plans[..n], plans[n].group)
  {
    hide GroupSize;
    var n := |plans| - 1;
    forall i | 0 <= i < n ensures plans[..n][i].version == 1 + GroupSize(plans[..n][..i], plans[..n][i].group) {
      assert plans[..n][..i] == plans[..i];
    }
  }

  lemma {:induction false} SameGroupsSameSize(a: seq<Plan>, b: seq<Plan>, group: string)
    requires |a| == |b| && forall i :: 0 <= i < |a| ==> a[i].group == b[i].group
    ensures GroupSize(a, group) == GroupSize(b, group)
  {
    if a != [] {
      SameGroupsSameSize(a[..|a| - 1], b[..|b| - 1], group);
    }
  }

  /** When nothing is appended, evolving keeps the groups in order. */
  lemma EvolvedGroups(a: seq<Plan>, b: seq<Plan>)
    requires GroupsOk(a) && StoreEvolves(a, b)
    ensures GroupsOk(b[..|a|])
  {
    hide GroupSize, SessionsEvolve;
    var c := b[..|a|];
    forall i | 0 <= i < |c| ensures c[i].version == 1 + GroupSize(c[..i], c[i].group) {
      assert Evolves(a[i], b[i]);
      forall k | 0 <= k < i ensures a[..i][k].group == c[..i][k].group {
        assert Evolves(a[k], b[k]);
      }
      SameGroupsSameSize(a[..i], c[..i], a[i].group);
    }
    forall i, j | 0 <= i < j < |c| && c[i].group == c[j].group ensures Dead(c[i].status) {
      assert Evolves(a[i], b[i]) && Evolves(a[j], b[j]);
      assert Dead(a[i].status);
    }
  }

  /** What a creation that appends a plan puts in place. */
  lemma CreateAppends(st: Store, tasks: Tasks, req: Request)
    requires GroupsOk(st.plans) && Create(st, tasks, req).Ok?
    requires req.group.None? ==> GroupSize(st.plans, req.newGroup) == 0
    requires |Create(st, tasks, req).value.0.plans| == |st.plans| + 1
    ensures var next := Create(st, tasks, req).value.0.plans;
      var added := next[|st.plans|];
      && added.group == req.Group()
      && added.version == 1 + GroupSize(st.plans, req.Group())
      && forall i :: 0 <= i < |st.plans| && st.plans[i].group == req.Group() ==> Dead(next[i].status)
  {
    hide RequestError, GroupSize, Numbered, LatestInGroup, NewSessions, WithKey;
    LatestIsLast(st.plans, req.Group());
    if req.group.None? {
      NoneInGroup(st.plans, req.newGroup);
    }
    var next := Create(st, tasks, req).value.0.plans;
    var previous := if req.group.Some? then LatestInGroup(st.plans, req.group.value) else None;
    forall i | 0 <= i < |st.plans| && st.plans[i].group == req.Group() ensures Dead(next[i].status) {
      if i == previous.value {
      } else {
        assert next[i] == st.plans[i];
        assert st.plans[i].group == st.plans[previous.value].group;
      }
    }
  }

  lemma {:induction false} NoneInGroup(plans: seq<Plan>, group: string)
    requires GroupSize(plans, group) == 0
    ensures forall i :: 0 <= i < |plans| ==> plans[i].group != group
  {
    if plans != [] {
      var n := |plans| - 1;
      GroupSizeBounds(plans, n, group);
      NoneInGroup(plans[..n], group);
      forall i | 0 <= i < |plans| ensures plans[i].group != group {
        assert i < n ==> plans[i] == plans[..n][i];
      }
    }
  }

  /** New groups get ids of their own: `uuid4`. */
  predicate FreshGroup(st: Store, step: Step) {
    step.CreateStep? && step.req.group.None? ==> GroupSize(st.plans, step.req.newGroup) == 0
  }

  lemma {:induction false} NextKeepsGroups(st: Store, tasks: Tasks, step: Step)
    requires GroupsOk(st.plans) && FreshGroup(st, step)
    ensures GroupsOk(Next(st, tasks, step).plans)
  {
    hide Create, Confirm, Revalidate, MarkObsolete, ApplyBegin, ApplySession, ApplyFinish, Numbered, OnlyNewestLives;
    NextEvolves(st, tasks, step);
    var next := Next(st, tasks, step).plans;
    EvolvedGroups(st.plans, next);
    if |next| == |st.plans| {
      assert next[..|st.plans|] == next;
    } else {
      OnlyCreateAppends(st, tasks, step);
      CreateAppends(st, tasks, step.req);
      AppendKeepsGroups(st.plans, next, step.req.Group());
    }
  }

  lemma OnlyCreateAppends(st: Store, tasks: Tasks, step: Step)
    requires |Next(st, tasks, step).plans| != |st.plans|
    ensures step.CreateStep? && Create(st, tasks, step.req).Ok?
  {
    hide Create, BacklogError, UpdatedEntry, EntryValid, TargetsResolve, ResultingStatus, TargetsOf;
  }

  lemma {:induction false} AppendKeepsGroups(a: seq<Plan>, b: seq<Plan>, group: string)
    requires StoreEvolves(a, b) && |b| == |a| + 1 && GroupsOk(b[..|a|])
    requires b[|a|].group == group && b[|a|].version == 1 + GroupSize(a, group)
    requires forall i :: 0 <= i < |a| && a[i].group == group ==> Dead(b[i].status)
    ensures GroupsOk(b)
  {
    hide GroupSize, Dead;
    var c := b[..|a|];
    forall i | 0 <= i < |a| ensures a[i].group == c[i].group {
      assert Evolves(a[i], b[i]);
    }
    SameGroupsSameSize(a, c, group);
    assert b == c + [b[|a|]];
    AppendNumbered(c, b[|a|]);
    forall i, j | 0 <= i < j < |b| && b[i].group == b[j].group ensures Dead(b[i].status) {
      if j < |a| {
        assert b[i] == c[i] && b[j] == c[j];
      }
    }
  }

  lemma AppendNumbered(c: seq<Plan>, p: Plan)
    requires Numbered(c) && p.version == 1 + GroupSize(c, p.group)
    ensures Numbered(c + [p])
  {
    hide GroupSize;
    var b := c + [p];
    forall i | 0 <= i < |b| ensures b[i].version == 1 + GroupSize(b[..i], b[i].group) {
      if i < |c| {
        assert b[i] == c[i] && b[..i] == c[..i];
      } else {
        assert b[..i] == c;
      }
    }
  }

  ghost predicate FreshGroups(st: Store, tasks: Tasks, steps: seq<Step>) {
    forall k :: 0 <= k < |steps| ==> FreshGroup(Run(st, tasks, steps[..k]), steps[k])
  }

  lemma {:induction false} RunKeepsGroups(st: Store, tasks: Tasks, steps: seq<Step>)
    requires GroupsOk(st.plans) && FreshGroups(st, tasks, steps)
    ensures GroupsOk(Run(st, tasks, steps).plans)
  {
    hide Next, GroupsOk, FreshGroup;
    if steps != [] {
      var init := steps[..|steps| - 1];
      forall k | 0 <= k < |init| ensures FreshGroup(Run(st, tasks, init[..k]), init[k]) {
        assert init[..k] == steps[..k];
      }
      RunKeepsGroups(st, tasks, init);
      assert FreshGroup(Run(st, tasks, steps[..|steps| - 1]), steps[|steps| - 1]);
      NextKeepsGroups(Run(st, tasks, init), tasks, steps[|steps| - 1]);
    }
  }

  // ----- the statement about groups -----

  /** The plan holds the group's version v. */
  predicate HoldsVersion(plans: seq<Plan>, i: int, group: string, v: int) {
    0 <= i < |plans| && plans[i].group == group && plans[i].version == v
  }

  /** Versions 1 to n occur, each once. */
  lemma {:induction false} VersionsAreExact(plans: seq<Plan>, group: string, v: int)
    requires GroupsOk(plans)
    ensures 1 <= v <= GroupSize(plans, group) <==> exists i :: HoldsVersion(plans, i, group, v)
    ensures forall i, j :: HoldsVersion(plans, i, group, v) && HoldsVersion(plans, j, group, v) ==> i == j
  {
    forall i | HoldsVersion(plans, i, group, v) ensures 1 <= v <= GroupSize(plans, group) {
      GroupSizeBounds(plans, i, group);
      GroupSizeBounds(plans, i + 1, group);
      GroupSizeStep(plans, i, group);
    }
    forall i, j | HoldsVersion(plans, i, group, v) && HoldsVersion(plans, j, group, v) ensures i == j {
      HigherVersionIsLater(plans, i, j);
      HigherVersionIsLater(plans, j, i);
    }
    if 1 <= v <= GroupSize(plans, group) {
      var i := FindVersion(plans, group, v);
    }
  }

  lemma {:induction false} FindVersion(plans: seq<Plan>, group: string, v: int) returns (i: nat)
    requires Numbered(plans) && 1 <= v <= GroupSize(plans, group)
    ensures HoldsVersion(plans, i, group, v)
  {
    var n := |plans| - 1;
    if plans[n].group == group && v == GroupSize(plans, group) {
      i := n;
    } else {
      forall k | 0 <= k < n ensures plans[..n][k].version == 1 + GroupSize(plans[..n][..k], plans[..n][k].group) {
        assert plans[..n][..k] == plans[..k];
      }
      i := FindVersion(plans[..n], group, v);
    }
  }

  /** The higher version is the later plan. */
  lemma HigherVersionIsLater(plans: seq<Plan>, i: nat, j: nat)
    requires Numbered(plans) && i < |plans| && j < |plans| && plans[i].group == plans[j].group
    ensures i < j ==> plans[i].version < plans[j].version
  {
    if i < j {
      GroupSizeStep(plans, i, plans[i].group);
      GroupSizeBounds(plans[..j], i + 1, plans[i].group);
      assert plans[..j][..i + 1] == plans[..i + 1];
    }
  }

  /**
    The plan-group invariant, over any run from an empty store: the versions of a group are
    exactly 1 to the number of its plans, each held once; of two plans of a group the one with
    the lower version is obsolete or failed; so they never both reserve time.
   */
  lemma {:induction false} GroupsStayInOrder(
    tasks: Tasks, entries: map<string, Entry>, steps: seq<Step>, group: string, v: int, i: nat, j: nat)
    requires FreshGroups(Store([], entries, {}), tasks, steps)
    ensures var plans := Run(Store([], entries, {}), tasks, steps).plans;
      && (1 <= v <= GroupSize(plans, group) <==> exists k :: HoldsVersion(plans, k, group, v))
      && (HoldsVersion(plans, i, group, v) && HoldsVersion(plans, j, group, v) ==> i == j)
      && (i < |plans| && j < |plans| && plans[i].group == plans[j].group ==>
            && (plans[i].version < plans[j].version ==> Dead(plans[i].status))
            && (i != j ==> !(Reserves(plans[i].status) && Reserves(plans[j].status))))
  {
    hide Run, GroupSize;
    var st := Store([], entries, {});
    EmptyIsOrdered();
    RunKeepsGroups(st, tasks, steps);
    var plans := Run(st, tasks, steps).plans;
    VersionsAreExact(plans, group, v);
    if i < |plans| && j < |plans| && plans[i].group == plans[j].group {
      HigherVersionIsLater(plans, i, j);
      HigherVersionIsLater(plans, j, i);
    }
  }

  lemma EmptyIsOrdered()
    ensures GroupsOk([])
  {
  }
}
