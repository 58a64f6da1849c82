/**
  Creating a plan: when it succeeds, what is stored, and that a key is stored once, so that a
  request sent again is answered with the plan it made.
 */
module PlanKeys {
  import opened Prelude
  import opened Plans
  import opened PlanRuns

  // ----- keys -----

  predicate HasKey(plans: seq<Plan>, key: string, i: int) {
    0 <= i < |plans| && plans[i].key == key
  }

  /** No two plans have one key. */
  ghost predicate UniqueKeys(plans: seq<Plan>) {
    forall key, i, j | HasKey(plans, key, i) && HasKey(plans, key, j) :: i == j
  }

  lemma {:induction false} WithKeyFinds(plans: seq<Plan>, key: string)
    ensures WithKey(plans, key).None? <==> forall i :: !HasKey(plans, key, i)
    ensures WithKey(plans, key).Some? ==> HasKey(plans, key, WithKey(plans, key).value)
  {
    if plans != [] {
      var n := |plans| - 1;
      WithKeyFinds(plans[..n], key);
      if WithKey(plans[..n], key).Some? {
        assert HasKey(plans, key, WithKey(plans[..n], key).value);
      } else if plans[n].key == key {
        assert HasKey(plans, key, n);
      } else {
        forall i ensures !HasKey(plans, key, i) {
          assert !HasKey(plans[..n], key, i);
        }
      }
    }
  }

  /** Evolving keeps every plan's key. */
  lemma EvolvedKeys(a: seq<Plan>, b: seq<Plan>, key: string, i: int)
    requires StoreEvolves(a, b) && 0 <= i < |a|
    ensures HasKey(a, key, i) <==> HasKey(b, key, i)
    ensures b[i].user == a[i].user
  {
    assert Evolves(a[i], b[i]);
  }

  lemma NextKeepsKeysUnique(st: Store, tasks: Tasks, step: Step)
    requires UniqueKeys(st.plans)
    ensures UniqueKeys(Next(st, tasks, step).plans)
  {
    hide Create, Confirm, Revalidate, MarkObsolete, ApplyBegin, ApplySession, ApplyFinish, MoveSession;
    NextEvolves(st, tasks, step);
    var next := Next(st, tasks, step).plans;
    if |next| != |st.plans| {
      OnlyCreateAppends(st, tasks, step);
      AddedKey(st, tasks, step.req);
    }
    forall key, i, j | HasKey(next, key, i) && HasKey(next, key, j) ensures i == j {
      if i < |st.plans| { EvolvedKeys(st.plans, next, key, i); }
      if j < |st.plans| { EvolvedKeys(st.plans, next, key, j); }
    }
  }

  lemma AddedKey(st: Store, tasks: Tasks, req: Request)
    requires Create(st, tasks, req).Ok? && |Create(st, tasks, req).value.0.plans| == |st.plans| + 1
    ensures Create(st, tasks, req).value.0.plans[|st.plans|].key == req.key
    ensures forall i :: !HasKey(st.plans, req.key, i)
  {
    hide RequestError, LatestInGroup, WithKey, NewSessions, HasKey;
    WithKeyFinds(st.plans, req.key);
  }

  /** In every state reached from an empty store no two plans have one key. */
  lemma {:induction false} KeysAreUnique(tasks: Tasks, entries: map<string, Entry>, steps: seq<Step>)
    ensures UniqueKeys(Run(Store([], entries, {}), tasks, steps).plans)
  {
    hide Next, UniqueKeys;
    if steps == [] {
      EmptyHasNoKeys();
    } else {
      var init := steps[..|steps| - 1];
      KeysAreUnique(tasks, entries, init);
      NextKeepsKeysUnique(Run(Store([], entries, {}), tasks, init), tasks, steps[|steps| - 1]);
    }
  }

  lemma EmptyHasNoKeys()
    ensures UniqueKeys([])
  {
  }

  // ----- what a creation needs and stores -----

  /** The task is the user's, the entry is the user's and of the task, and the sessions are positive. */
  predicate Acceptable(st: Store, tasks: Tasks, req: Request) {
    && (req.taskId.Some? ==> req.taskId.value in tasks && tasks[req.taskId.value].user == req.user)
    && (req.backlogId.Some? ==>
          && req.backlogId.value in st.entries && st.entries[req.backlogId.value].user == req.user
          && req.taskId == Some(st.entries[req.backlogId.value].taskId))
    && |req.sessionIds| == |req.minutes| > 0
    && forall k | 0 <= k < |req.minutes| :: req.minutes[k] > 0
  }

  lemma AcceptableIff(st: Store, tasks: Tasks, req: Request)
    ensures Acceptable(st, tasks, req) <==> RequestError(st, tasks, req).None? && req.Valid()
  {
    if Acceptable(st, tasks, req) {
      forall m | m in req.minutes ensures m > 0 {
        var k :| 0 <= k < |req.minutes| && req.minutes[k] == m;
      }
    }
    if req.Valid() {
      forall k | 0 <= k < |req.minutes| ensures req.minutes[k] > 0 {
        assert req.minutes[k] in req.minutes;
      }
    }
  }

  /** The last plan of a group. */
  ghost predicate Newest(plans: seq<Plan>, group: string, i: int) {
    && 0 <= i < |plans| && plans[i].group == group
    && forall j :: i < j < |plans| ==> plans[j].group != group
  }

  /** A newest plan can be revised by its user until it is being applied. */
  predicate Revisable(p: Plan, user: string) {
    p.user == user && p.status != Applying && p.status != Applied && p.status != PartiallyApplied
  }

  /** The request's sessions in order, proposed and in no calendar, each with its one target. */
  predicate IsPlanOf(p: Plan, req: Request, version: int) {
    && p.user == req.user && p.taskId == req.taskId && p.backlogId == req.backlogId && p.key == req.key
    && p.group == (if req.group.Some? then req.group.value else req.newGroup)
    && p.version == version && p.status == Proposed
    && |p.sessions| == |p.targets| == |req.sessionIds| == |req.minutes|
    && forall k | 0 <= k < |p.sessions| ::
         && p.sessions[k] == PlanSession(req.sessionIds[k], req.minutes[k], SessionProposed, None)
         && p.targets[k] == Target(req.sessionIds[k], req.connection, req.calendarId)
  }

  /** A revised plan ends obsolete with its sessions, unless it failed or is obsolete already. */
  predicate Retired(before: Plan, after: Plan) {
    if before.status == Failed || before.status == Obsolete then after == before
    else
      && after.(status := before.status, sessions := before.sessions) == before && after.status == Obsolete
      && |after.sessions| == |before.sessions|
      && forall k | 0 <= k < |before.sessions| ::
           after.sessions[k] == before.sessions[k].(status := SessionObsolete)
  }

  /** The stored plans after a creation: the newest plan of the group retired, the new one last. */
  ghost predicate Stores(before: seq<Plan>, after: seq<Plan>, req: Request) {
    && |after| == |before| + 1
    && (forall i | 0 <= i < |before| ::
          if req.group.Some? && Newest(before, req.group.value, i) then Retired(before[i], after[i])
          else after[i] == before[i])
    && IsPlanOf(after[|before|], req,
                if req.group.Some? then 1 + GroupSize(before, req.group.value) else 1)
  }

  /** The plan found for a group is its newest one. */
  lemma LatestIsNewest(plans: seq<Plan>, group: string)
    requires Numbered(plans)
    ensures var r := LatestInGroup(plans, group);
      && (r.None? ==> forall i :: !Newest(plans, group, i))
      && (forall i | Newest(plans, group, i) :: r == Some(i))
      && (r.Some? ==> Newest(plans, group, r.value) && plans[r.value].version == GroupSize(plans, group))
      && (r.None? ==> GroupSize(plans, group) == 0)
  {
    hide GroupSize, Numbered, LatestInGroup;
    LatestIsLast(plans, group);
  }

  lemma NewPlanIs(req: Request, version: int)
    requires req.Valid()
    ensures IsPlanOf(NewPlan(req, version), req, version)
  {
  }

  lemma ObsoletedIsRetired(p: Plan)
    requires p.status != Applying && p.status != Applied && p.status != PartiallyApplied
    ensures Retired(p, if Replaceable(p.status) then Obsoleted(p) else p)
  {
  }

  /** With a key nobody has used, a creation succeeds exactly for an acceptable request and a revisable newest plan. */
  lemma CreationSucceedsIff(st: Store, tasks: Tasks, req: Request)
    requires Numbered(st.plans) && forall i :: !HasKey(st.plans, req.key, i)
    ensures Create(st, tasks, req).Ok? <==>
            Acceptable(st, tasks, req) && (req.group.Some? ==>
              forall i | Newest(st.plans, req.group.value, i) :: Revisable(st.plans[i], req.user))
  {
    hide RequestError, LatestInGroup, WithKey, NewPlan, Obsoleted, Numbered, HasKey, Acceptable, Newest;
    AcceptableIff(st, tasks, req);
    WithKeyFinds(st.plans, req.key);
    if req.group.Some? {
      LatestIsNewest(st.plans, req.group.value);
    }
  }

  /** Then the new plan is stored last, numbered after those of its group, and the newest one is retired. */
  lemma CreationStores(st: Store, tasks: Tasks, req: Request)
    requires Numbered(st.plans) && (forall i :: !HasKey(st.plans, req.key, i)) && Create(st, tasks, req).Ok?
    ensures var (next, i) := Create(st, tasks, req).value;
      && i == |st.plans| && Stores(st.plans, next.plans, req)
      && next.entries == st.entries && next.events == st.events
  {
    hide RequestError, LatestInGroup, WithKey, NewPlan, Obsoleted, Numbered, HasKey, Newest, IsPlanOf, Retired;
    hide GroupSize, Replaceable;
    WithKeyFinds(st.plans, req.key);
    var next := Create(st, tasks, req).value.0.plans;
    NewPlanIs(req, if req.group.Some? then 1 + GroupSize(st.plans, req.group.value) else 1);
    var previous := if req.group.Some? then LatestInGroup(st.plans, req.group.value) else None;
    if req.group.Some? {
      LatestIsNewest(st.plans, req.group.value);
      if previous.Some? {
        ObsoletedIsRetired(st.plans[previous.value]);
      }
    }
    forall i | 0 <= i < |st.plans|
      ensures if req.group.Some? && Newest(st.plans, req.group.value, i) then Retired(st.plans[i], next[i])
              else next[i] == st.plans[i]
    {
      if previous == Some(i) {
        assert Newest(st.plans, req.group.value, i);
      }
    }
  }

  /**
    A request whose key is stored: answered with that plan, and nothing changes, when it is
    acceptable and the plan is its user's; refused otherwise.
   */
  lemma RepeatChangesNothing(st: Store, tasks: Tasks, req: Request, i: int)
    requires UniqueKeys(st.plans) && HasKey(st.plans, req.key, i)
    ensures Create(st, tasks, req).Ok? <==> Acceptable(st, tasks, req) && st.plans[i].user == req.user
    ensures Create(st, tasks, req).Ok? ==> Create(st, tasks, req).value == (st, i)
  {
    hide RequestError, LatestInGroup, WithKey, NewPlan, Obsoleted, Acceptable;
    AcceptableIff(st, tasks, req);
    WithKeyFinds(st.plans, req.key);
  }

  /** The answer to a request: the plan that has its key, or a new one; an error otherwise. */
  ghost predicate Answers(before: Store, tasks: Tasks, req: Request, r: Result<nat, Error>, after: Store) {
    && (r.Err? ==> after == before)
    && (forall k | HasKey(before.plans, req.key, k) ::
          if Acceptable(before, tasks, req) && before.plans[k].user == req.user then r == Ok(k) && after == before
          else r.Err?)
    && ((forall k :: !HasKey(before.plans, req.key, k)) ==>
          && (r.Ok? <==> Acceptable(before, tasks, req) && (req.group.Some? ==>
                forall i | Newest(before.plans, req.group.value, i) :: Revisable(before.plans[i], req.user)))
          && (r.Ok? ==>
                && r.value == |before.plans| && Stores(before.plans, after.plans, req)
                && after.entries == before.entries && after.events == before.events))
  }

  /** The index returned, or the error. */
  function AnswerOf(r: Result<(Store, nat), Error>): Result<nat, Error> {
    match r
    case Ok(value) => Ok(value.1)
    case Err(error) => Err(error)
  }

  function StoreOf(st: Store, r: Result<(Store, nat), Error>): Store {
    if r.Ok? then r.value.0 else st
  }

  lemma CreationAnswers(st: Store, tasks: Tasks, req: Request)
    requires UniqueKeys(st.plans) && Numbered(st.plans)
    ensures var r := Create(st, tasks, req); Answers(st, tasks, req, AnswerOf(r), StoreOf(st, r))
  {
    hide Create, UniqueKeys, Numbered, Acceptable, Stores, Newest;
    forall k | HasKey(st.plans, req.key, k)
      ensures var r := Create(st, tasks, req);
        if Acceptable(st, tasks, req) && st.plans[k].user == req.user then r == Result.Ok((st, k)) else r.Err?
    {
      RepeatChangesNothing(st, tasks, req, k);
    }
    if forall k :: !HasKey(st.plans, req.key, k) {
      CreationSucceedsIff(st, tasks, req);
      if Create(st, tasks, req).Ok? {
        CreationStores(st, tasks, req);
      }
    }
  }

  // ----- the same request later -----

  /** Entries stay, with their user and task. */
  predicate KeepsOwners(a: map<string, Entry>, b: map<string, Entry>) {
    forall id | id in a :: id in b && b[id].user == a[id].user && b[id].taskId == a[id].taskId
  }

  lemma NextKeepsOwners(st: Store, tasks: Tasks, step: Step)
    ensures KeepsOwners(st.entries, Next(st, tasks, step).entries)
  {
    hide RequestError, LatestInGroup, WithKey, NewPlan, BacklogError, EntryValid, RemainingWork, TargetsResolve,
         ResultingStatus;
  }

  /** From a state in which a request's plan is stored, it stays acceptable and keeps its plan. */
  lemma {:induction false} RunKeepsHolder(st: Store, tasks: Tasks, steps: seq<Step>, req: Request, i: int)
    requires UniqueKeys(st.plans) && HasKey(st.plans, req.key, i) && st.plans[i].user == req.user
    requires Acceptable(st, tasks, req)
    ensures var end := Run(st, tasks, steps);
      && UniqueKeys(end.plans) && HasKey(end.plans, req.key, i) && end.plans[i].user == req.user
      && Acceptable(end, tasks, req)
  {
    hide Next, UniqueKeys;
    if steps != [] {
      var init, last := steps[..|steps| - 1], steps[|steps| - 1];
      RunKeepsHolder(st, tasks, init, req, i);
      var mid := Run(st, tasks, init);
      NextKeepsKeysUnique(mid, tasks, last);
      NextEvolves(mid, tasks, last);
      EvolvedKeys(mid.plans, Next(mid, tasks, last).plans, req.key, i);
      NextKeepsOwners(mid, tasks, last);
    }
  }

  /** Over any run, a request that succeeded once is answered with the same plan and changes nothing. */
  lemma SameAnswerLater(st: Store, tasks: Tasks, req: Request, steps: seq<Step>)
    requires UniqueKeys(st.plans) && Create(st, tasks, req).Ok?
    ensures var (next, i) := Create(st, tasks, req).value;
      var end := Run(next, tasks, steps);
      Create(end, tasks, req) == Result.Ok((end, i))
  {
    hide Create, Run, UniqueKeys, Acceptable;
    var next, i := Create(st, tasks, req).value.0, Create(st, tasks, req).value.1;
    CreatedHolds(st, tasks, req);
    RunKeepsHolder(next, tasks, steps, req, i);
    RepeatChangesNothing(Run(next, tasks, steps), tasks, req, i);
  }

  lemma CreatedHolds(st: Store, tasks: Tasks, req: Request)
    requires UniqueKeys(st.plans) && Create(st, tasks, req).Ok?
    ensures var (next, i) := Create(st, tasks, req).value;
      && UniqueKeys(next.plans) && HasKey(next.plans, req.key, i) && next.plans[i].user == req.user
      && Acceptable(next, tasks, req)
  {
    hide RequestError, LatestInGroup, WithKey, NewSessions, UniqueKeys, Acceptable;
    AcceptableIff(st, tasks, req);
    AcceptableIff(Create(st, tasks, req).value.0, tasks, req);
    NextKeepsKeysUnique(st, tasks, CreateStep(req));
    SameEntriesSameError(st, Create(st, tasks, req).value.0, tasks, req);
  }

  lemma SameEntriesSameError(a: Store, b: Store, tasks: Tasks, req: Request)
    requires a.entries == b.entries
    ensures RequestError(a, tasks, req) == RequestError(b, tasks, req)
  {
  }
}
