/**
  Processing a mapping's changes in the order they were recorded: it gets through exactly when
  every recorded move is of whole minutes, and then session and snapshot agree.
 */
module SyncInOrder {
  import opened Sync
  import opened SyncConvergence
  import opened SyncOrder

  /** Process the mapping's changes from index i up to k, one after the other. */
  function InOrder(changes: seq<Change>, i: nat, k: nat, m: string): seq<Step>
    requires k <= |changes|
  {
    if k <= i then []
    else
      InOrder(changes, i, k - 1, m)
      + (if changes[k - 1].mapping == m then [ProcessStep(k - 1)] else [])
  }

  predicate WholeMove(c: Change) {
    IsMove(c) ==> WholeMinutes(Shown(c.new_))
  }

  /** The mapping's moves from index i up to k are of whole minutes. */
  predicate WholeMoves(changes: seq<Change>, i: nat, k: nat, m: string)
    requires k <= |changes|
  {
    forall j | i <= j < k && changes[j].mapping == m :: WholeMove(changes[j])
  }

  lemma {:induction false} InOrderNeverMissing(changes: seq<Change>, i: nat, k: nat, m: string)
    requires k <= |changes|
    ensures NeverMissing(InOrder(changes, i, k, m), m)
  {
    if k > i {
      InOrderNeverMissing(changes, i, k - 1, m);
    }
  }

  lemma {:induction false} RunConcat(s: Store, a: seq<Step>, b: seq<Step>, info: PlanInfo)
    ensures Run(s, a + b, info) == Run(Run(s, a, info), b, info)
  {
    hide Next;
    if b == [] {
      assert a + b == a;
    } else {
      assert (a + b)[..|a + b| - 1] == a + b[..|b| - 1];
      RunConcat(s, a, b[..|b| - 1], info);
    }
  }

  /** Processing a change leaves the others as they are and its own record but for status and actions. */
  ghost predicate OnlyStatus(a: seq<Change>, b: seq<Change>, k: nat) {
    && |a| == |b|
    && forall j :: 0 <= j < |a| ==> b[j] == if j == k
        then a[j].(status := b[j].status, actions := b[j].actions) else a[j]
  }

  lemma ProcessOnlyStatus(s: Store, k: nat, info: PlanInfo)
    ensures OnlyStatus(s.changes, Next(s, ProcessStep(k), info).changes, k)
    ensures Process(s, k, info).Ok? ==> Next(s, ProcessStep(k), info).changes[k].status == Processed
    ensures Process(s, k, info).Err? ==> Next(s, ProcessStep(k), info) == s
  {
    hide Decide, ApplyAll;
    if k < |s.changes| {
      DecidedIsMapped(s, k, info);
    }
  }

  /** What the run up to k leaves of the log: records as they were, and those from k on untouched. */
  ghost predicate SameLog(before: seq<Change>, after: seq<Change>, k: nat) {
    && |after| == |before|
    && (forall j :: 0 <= j < |before| ==>
          after[j] == before[j].(status := after[j].status, actions := after[j].actions))
    && (forall j :: k <= j < |before| ==> after[j] == before[j])
  }

  lemma SameLogNext(before: seq<Change>, mid: seq<Change>, after: seq<Change>, k: nat)
    requires SameLog(before, mid, k) && OnlyStatus(mid, after, k)
    ensures SameLog(before, after, k + 1)
  {
  }

  /** A pending change of a listed session, all earlier ones processed, is processed iff it is no broken move. */
  lemma NextInOrder(s: Store, steps: seq<Step>, m: string, info: PlanInfo, k: nat)
    requires Agrees(s, m, info) && NeverMissing(steps, m) && m in info.order
    requires var mid := Run(s, steps, info);
      && |s.changes| <= k < |mid.changes| && mid.changes[k].mapping == m
      && ProcessedUpTo(mid.changes, k, m)
    ensures var mid := Run(s, steps, info);
      Process(mid, k, info).Ok? <==> WholeMove(mid.changes[k])
  {
    hide Run, Agrees, ChangeKind, Process, NeverMissing, Total;
    StartsPresent(s, steps, m, info);
    var mid := Run(s, steps, info);
    var c := mid.changes[k];
    assert Logged(c) && BothPresent(c) && Unprocessed(c);
    if IsMove(c) {
      OldestFirstIsNeverStale(s, steps, m, info, k);
      MoveAppliesIff(mid, k, info);
    } else {
      UpdateApplies(mid, k, info);
    }
  }

  /** Up to k: all processed when the moves are whole, and otherwise one of them is left pending. */
  lemma {:induction false} InOrderUpTo(s: Store, steps: seq<Step>, m: string, info: PlanInfo, i: nat, k: nat)
    requires Agrees(s, m, info) && NeverMissing(steps, m) && m in info.order
    requires var mid := Run(s, steps, info);
      |s.changes| <= i <= k <= |mid.changes| && ProcessedUpTo(mid.changes, i, m)
    ensures var mid := Run(s, steps, info);
      var end := Run(mid, InOrder(mid.changes, i, k, m), info);
      && SameLog(mid.changes, end.changes, k)
      && (WholeMoves(mid.changes, i, k, m) ==> ProcessedUpTo(end.changes, k, m))
      && (!WholeMoves(mid.changes, i, k, m) ==>
            exists j :: 0 <= j < k && end.changes[j].mapping == m && Unprocessed(end.changes[j]))
    decreases k
  {
    hide Agrees, NeverMissing, Next, WholeMove;
    var mid := Run(s, steps, info);
    if k == i {
      assert InOrder(mid.changes, i, k, m) == [];
    } else {
      InOrderUpTo(s, steps, m, info, i, k - 1);
      var before := InOrder(mid.changes, i, k - 1, m);
      if mid.changes[k - 1].mapping == m {
        assert InOrder(mid.changes, i, k, m) == before + [ProcessStep(k - 1)];
        InOrderTurn(s, steps, m, info, i, k, before);
      } else {
        assert InOrder(mid.changes, i, k, m) == before + [] == before;
      }
    }
  }

  lemma InOrderTurn(
    s: Store, steps: seq<Step>, m: string, info: PlanInfo, i: nat, k: nat, before: seq<Step>)
    requires Agrees(s, m, info) && NeverMissing(steps, m) && m in info.order
    requires var mid := Run(s, steps, info);
      && |s.changes| <= i < k <= |mid.changes| && mid.changes[k - 1].mapping == m
      && before == InOrder(mid.changes, i, k - 1, m)
      && var last := Run(mid, before, info);
         && SameLog(mid.changes, last.changes, k - 1)
         && (WholeMoves(mid.changes, i, k - 1, m) ==> ProcessedUpTo(last.changes, k - 1, m))
         && (!WholeMoves(mid.changes, i, k - 1, m) ==>
               exists j :: 0 <= j < k - 1 && last.changes[j].mapping == m && Unprocessed(last.changes[j]))
    ensures var mid := Run(s, steps, info);
      var end := Run(mid, before + [ProcessStep(k - 1)], info);
      && SameLog(mid.changes, end.changes, k)
      && (WholeMoves(mid.changes, i, k, m) ==> ProcessedUpTo(end.changes, k, m))
      && (!WholeMoves(mid.changes, i, k, m) ==>
            exists j :: 0 <= j < k && end.changes[j].mapping == m && Unprocessed(end.changes[j]))
  {
    hide Agrees, NeverMissing, Next, WholeMove, Process, Run, InOrder;
    var mid := Run(s, steps, info);
    var last := Run(mid, before, info);
    var end := Run(mid, before + [ProcessStep(k - 1)], info);
    RunNext(mid, before, ProcessStep(k - 1), info);
    ProcessOnlyStatus(last, k - 1, info);
    SameLogNext(mid.changes, last.changes, end.changes, k - 1);
    assert WholeMoves(mid.changes, i, k, m) <==>
           WholeMoves(mid.changes, i, k - 1, m) && WholeMove(mid.changes[k - 1]);
    if WholeMoves(mid.changes, i, k - 1, m) {
      RunConcat(s, steps, before, info);
      InOrderNeverMissing(mid.changes, i, k - 1, m);
      NeverMissingConcat(steps, before, m);
      NextInOrder(s, steps + before, m, info, k - 1);
    } else {
      var j :| 0 <= j < k - 1 && last.changes[j].mapping == m && Unprocessed(last.changes[j]);
      assert end.changes[j] == last.changes[j];
    }
  }

  lemma RunNext(s: Store, steps: seq<Step>, step: Step, info: PlanInfo)
    ensures Run(s, steps + [step], info) == Next(Run(s, steps, info), step, info)
  {
    hide Next;
    assert (steps + [step])[..|steps|] == steps;
  }

  lemma NeverMissingConcat(a: seq<Step>, b: seq<Step>, m: string)
    requires NeverMissing(a, m) && NeverMissing(b, m)
    ensures NeverMissing(a + b, m)
  {
  }

  /**
    Oldest first, from any state reached. While the event of a plan's session never goes
    missing: once the mapping's changes are processed up to index i, processing the rest in
    recorded order leaves all of them processed and session and snapshot in agreement exactly
    when every move among them is of whole minutes.
   */
  lemma {:induction false} InOrderConvergesIff(s: Store, steps: seq<Step>, m: string, info: PlanInfo, i: nat)
    requires Agrees(s, m, info) && NeverMissing(steps, m) && m in info.order
    requires var mid := Run(s, steps, info);
      |s.changes| <= i <= |mid.changes| && ProcessedUpTo(mid.changes, i, m)
    ensures var mid := Run(s, steps, info);
      var end := Run(mid, InOrder(mid.changes, i, |mid.changes|, m), info);
      && m in end.mappings && m in end.sessions
      && (AllProcessed(end.changes, m) && InAgreement(end, m, info) <==>
            WholeMoves(mid.changes, i, |mid.changes|, m))
  {
    hide Run, Agrees, NeverMissing, WholeMove, IsMove;
    var mid := Run(s, steps, info);
    var n := |mid.changes|;
    var rest := InOrder(mid.changes, i, n, m);
    var end := Run(mid, rest, info);
    InOrderUpTo(s, steps, m, info, i, n);
    InOrderNeverMissing(mid.changes, i, n, m);
    NeverMissingConcat(steps, rest, m);
    RunConcat(s, steps, rest, info);
    ProcessingConverges(s, steps + rest, m, info);
    if WholeMoves(mid.changes, i, n, m) {
      forall c | c in end.changes ensures c.mapping == m ==> !Unprocessed(c) {
        var j :| 0 <= j < n && end.changes[j] == c;
      }
    } else {
      var j :| 0 <= j < n && end.changes[j].mapping == m && Unprocessed(end.changes[j]);
      assert end.changes[j] in end.changes;
    }
  }

  // ----- after pulls alone -----

  predicate OnlyPulls(steps: seq<Step>) {
    forall step | step in steps :: step.PullStep?
  }

  /** Pulls append pending changes and touch nothing else of the log. */
  lemma {:induction false} PullsAppend(s: Store, steps: seq<Step>, info: PlanInfo)
    requires OnlyPulls(steps)
    ensures var mid := Run(s, steps, info);
      && s.changes <= mid.changes
      && forall j :: |s.changes| <= j < |mid.changes| ==> mid.changes[j].status == Pending
  {
    hide ChangeKind, SyncedWith;
    if steps != [] {
      var init, last := steps[..|steps| - 1], steps[|steps| - 1];
      assert last in steps && forall step | step in init :: step in steps;
      PullsAppend(s, init, info);
    }
  }

  /**
    So after any pulls from agreement, processing the changes they recorded, oldest first,
    leaves them processed and session and snapshot in agreement exactly when every recorded
    move is of whole minutes.
   */
  lemma {:induction false} PulledThenInOrder(s: Store, pulls: seq<Step>, m: string, info: PlanInfo)
    requires Agrees(s, m, info) && OnlyPulls(pulls) && NeverMissing(pulls, m) && m in info.order
    ensures var mid := Run(s, pulls, info);
      && |s.changes| <= |mid.changes|
      && var end := Run(mid, InOrder(mid.changes, |s.changes|, |mid.changes|, m), info);
         && m in end.mappings && m in end.sessions
         && (AllProcessed(end.changes, m) && InAgreement(end, m, info) <==>
               WholeMoves(mid.changes, |s.changes|, |mid.changes|, m))
  {
    hide Run, NeverMissing, InOrder, WholeMoves, InAgreement;
    var mid := Run(s, pulls, info);
    PullsAppend(s, pulls, info);
    forall j | 0 <= j < |s.changes| && mid.changes[j].mapping == m ensures !Unprocessed(mid.changes[j]) {
      assert s.changes[j] in s.changes;
    }
    InOrderConvergesIff(s, pulls, m, info, |s.changes|);
  }
}
