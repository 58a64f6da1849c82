/**
  When every pending move of a mapping is stale, processing frees none of them: until the next
  pull of that mapping they stay pending and the session stays where it is, whatever is
  processed and whatever else is pulled.
 */
module SyncStuck {
  import opened Sync
  import opened SyncConvergence

  /** The mapping is not pulled. */
  predicate NoPullOf(steps: seq<Step>, m: string) {
    forall step | step in steps :: step.PullStep? ==> step.target != m
  }

  /** Every pending move of the mapping is stale; what is pending is as a pull appends it. */
  predicate Stuck(s: Store, m: string) {
    && m in s.sessions && m in s.mappings && AllMovesStale(s, m)
    && forall c | c in s.changes && c.mapping == m && Unprocessed(c) :: Logged(c)
  }

  predicate PendingMove(c: Change, m: string) {
    c.mapping == m && Unprocessed(c) && IsMove(c)
  }

  /** Still stuck: the same moves pending, nothing of the mapping recorded, session and snapshot as they were. */
  ghost predicate StillStuck(s: Store, end: Store, m: string)
    requires m in s.sessions && m in s.mappings
  {
    && Stuck(end, m)
    && end.sessions[m] == s.sessions[m] && end.mappings[m].snapshot == s.mappings[m].snapshot
    && |s.changes| <= |end.changes|
    && (forall j | 0 <= j < |s.changes| && PendingMove(s.changes[j], m) :: end.changes[j] == s.changes[j])
    && (forall j | 0 <= j < |s.changes| :: end.changes[j].mapping == s.changes[j].mapping)
    && (forall j | |s.changes| <= j < |end.changes| :: end.changes[j].mapping != m)
  }

  lemma StillStuckTransitive(a: Store, b: Store, c: Store, m: string)
    requires m in a.sessions && m in a.mappings && StillStuck(a, b, m) && StillStuck(b, c, m)
    ensures StillStuck(a, c, m)
  {
    hide Stuck, IsMove;
    forall j | 0 <= j < |a.changes| && PendingMove(a.changes[j], m) ensures c.changes[j] == a.changes[j] {
      assert PendingMove(b.changes[j], m);
    }
  }

  /** What is pending afterwards was pending before, and the session has not moved. */
  lemma StaysStuck(s: Store, next: Store, m: string)
    requires Stuck(s, m) && m in next.sessions && m in next.mappings && next.sessions[m] == s.sessions[m]
    requires forall c | c in next.changes && c.mapping == m && Unprocessed(c) :: c in s.changes
    ensures Stuck(next, m)
  {
    hide Logged, IsMove;
    forall c | c in next.changes && PendingMove(c, m) ensures StaleMove(c, next, m) {
      assert StaleMove(c, s, m);
    }
  }

  lemma ProcessStaysStuck(s: Store, i: nat, m: string, info: PlanInfo)
    requires Stuck(s, m)
    ensures StillStuck(s, Next(s, ProcessStep(i), info), m)
  {
    hide Decide, ApplyAll, Logged, IsMove, AllMovesStale, Stuck, Process;
    StuckMeans(s, m);
    if Process(s, i, info).Ok? && Process(s, i, info).value != s {
      Processes(s, i, info);
      var c := s.changes[i];
      var next := Process(s, i, info).value;
      if c.mapping == m {
        StuckMovesNothing(s, i, m, info);
      }
      forall d | d in next.changes && d.mapping == m && Unprocessed(d) ensures d in s.changes {
        var j :| 0 <= j < |next.changes| && next.changes[j] == d;
        assert d == s.changes[j];
      }
      StaysStuck(s, next, m);
    }
  }

  lemma StuckMeans(s: Store, m: string)
    requires Stuck(s, m)
    ensures m in s.sessions && m in s.mappings
  {
  }

  /** What a change processed just now leaves: its own record processed, and only its own mapping touched. */
  lemma Processes(s: Store, i: nat, info: PlanInfo)
    requires Process(s, i, info).Ok? && Process(s, i, info).value != s
    ensures i < |s.changes| && Decide(s, i, info).Ok?
    ensures var c := s.changes[i];
      var next := Process(s, i, info).value;
      && Unprocessed(c) && c.mapping in s.sessions && c.mapping in s.mappings
      && next.sessions == s.sessions[c.mapping :=
                                       ApplyAll(EffectsOf(s, c.mapping), Decide(s, i, info).value, i).session]
      && next.mappings.Keys == s.mappings.Keys
      && (forall m | m in s.mappings :: next.mappings[m].snapshot == s.mappings[m].snapshot)
      && |next.changes| == |s.changes|
      && next.changes[i].mapping == c.mapping && !Unprocessed(next.changes[i])
      && forall j | 0 <= j < |s.changes| && j != i :: next.changes[j] == s.changes[j]
  {
    hide Decide, ApplyAll;
    DecidedIsMapped(s, i, info);
  }

  /** Of a stuck mapping, only changes that move nothing are processed. */
  lemma StuckMovesNothing(s: Store, i: nat, m: string, info: PlanInfo)
    requires Stuck(s, m) && i < |s.changes| && s.changes[i].mapping == m && Unprocessed(s.changes[i])
    requires Process(s, i, info).Ok? && Decide(s, i, info).Ok?
    ensures !IsMove(s.changes[i])
    ensures ApplyAll(EffectsOf(s, m), Decide(s, i, info).value, i).session == s.sessions[m]
  {
    hide Decide, ApplyAll, Logged, Process;
    assert s.changes[i] in s.changes;
    if IsMove(s.changes[i]) {
      StaleChangesNothing(s, i, info);
    } else {
      ProcessEffect(s, i, info);
    }
  }

  lemma PullStaysStuck(s: Store, target: string, fetch: Fetch, m: string, info: PlanInfo)
    requires Stuck(s, m) && target != m
    ensures StillStuck(s, Pull(s, target, fetch, info), m)
  {
    hide ChangeKind, SyncedWith, Logged, IsMove, AllMovesStale, Stuck;
    StuckMeans(s, m);
    var next := Pull(s, target, fetch, info);
    assert s.changes <= next.changes;
    forall j | |s.changes| <= j < |next.changes| ensures next.changes[j].mapping == target {
    }
    forall d | d in next.changes && d.mapping == m && Unprocessed(d) ensures d in s.changes {
      var j :| 0 <= j < |next.changes| && next.changes[j] == d;
      assert d == s.changes[j];
    }
    StaysStuck(s, next, m);
  }

  /**
    Over any run without a pull of the mapping, no pending move is freed, and session and last
    snapshot stay as they are, in agreement or not.
   */
  lemma {:induction false} RunStaysStuck(s: Store, steps: seq<Step>, m: string, info: PlanInfo)
    requires Stuck(s, m) && NoPullOf(steps, m)
    ensures StillStuck(s, Run(s, steps, info), m)
  {
    hide Pull, Process, Stuck, PendingMove;
    StuckMeans(s, m);
    if steps != [] {
      var init, last := steps[..|steps| - 1], steps[|steps| - 1];
      assert last in steps && forall step | step in init :: step in steps;
      RunStaysStuck(s, init, m, info);
      var mid := Run(s, init, info);
      match last {
        case PullStep(target, fetch) => PullStaysStuck(mid, target, fetch, m, info);
        case ProcessStep(i) => ProcessStaysStuck(mid, i, m, info);
      }
      StillStuckTransitive(s, mid, Run(s, steps, info), m);
    }
  }

  lemma SameSnapshotAgrees(s: Store, end: Store, n: nat, m: string, info: PlanInfo)
    requires Balanced(s, n, m, info) && Balanced(end, n, m, info)
    requires end.sessions[m] == s.sessions[m] && end.mappings[m].snapshot == s.mappings[m].snapshot
    ensures InAgreement(end, m, info) <==> InAgreement(s, m, info)
  {
  }

  /**
    In every state reached from agreement: once every pending move of the mapping is stale, only
    a further pull of it can free one. Without, every pending move stays pending and stale, the
    session stays where it is, and it agrees with the last snapshot afterwards exactly when it
    did before.
   */
  lemma {:induction false} OnlyPullsFree(s: Store, steps: seq<Step>, later: seq<Step>, m: string, info: PlanInfo)
    requires Agrees(s, m, info) && NoPullOf(later, m)
    requires m in Run(s, steps, info).sessions && AllMovesStale(Run(s, steps, info), m)
    ensures var mid := Run(s, steps, info);
      var end := Run(mid, later, info);
      && m in mid.mappings && m in end.sessions && m in end.mappings && |mid.changes| <= |end.changes|
      && end.sessions[m] == mid.sessions[m] && AllMovesStale(end, m)
      && (InAgreement(end, m, info) <==> InAgreement(mid, m, info))
      && forall j | 0 <= j < |mid.changes| && PendingMove(mid.changes[j], m) :: end.changes[j] == mid.changes[j]
  {
    hide Run, Agrees, InAgreement, AllMovesStale, PendingMove, Logged;
    var mid := Run(s, steps, info);
    AgreeingIsBalanced(s, m, info);
    RunKeepsBalance(s, steps, |s.changes|, m, info);
    BalancedIsLogged(mid, |s.changes|, m, info);
    RunStaysStuck(mid, later, m, info);
    RunKeepsBalance(mid, later, |s.changes|, m, info);
    SameSnapshotAgrees(mid, Run(mid, later, info), |s.changes|, m, info);
  }

  lemma BalancedIsLogged(s: Store, n: nat, m: string, info: PlanInfo)
    requires Balanced(s, n, m, info)
    ensures m in s.sessions && m in s.mappings
    ensures forall c | c in s.changes && c.mapping == m && Unprocessed(c) :: Logged(c)
  {
    hide Logged;
    forall c | c in s.changes && c.mapping == m && Unprocessed(c) ensures Logged(c) {
      var j :| 0 <= j < |s.changes| && s.changes[j] == c;
      assert n <= j;
    }
  }
}
