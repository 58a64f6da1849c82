/**
  What the result does not depend on: the order of its inputs, and, for a task, the tasks
  that sort after it.
 */
module SchedulerInvariance {
  import opened Sorting
  import opened Orders
  import opened Intervals
  import opened Zones
  import opened Scheduler
  import opened PlaceLoop
  import opened RunLoop

  predicate DifferentIds(a: Task, b: Task) {
    a.id != b.id
  }

  ghost predicate UniqueIds(tasks: seq<Task>) {
    Pairwise(tasks, DifferentIds)
  }

  // ----- the orders -----

  lemma TaskOrder()
    ensures TotalPreorder(TaskLe)
    ensures forall a, b :: TaskLe(a, b) && TaskLe(b, a) ==> a.id == b.id
  {
    hide StringLe;
    forall a: Task, b: Task
      ensures TaskLe(a, b) || TaskLe(b, a)
      ensures TaskLe(a, b) && TaskLe(b, a) ==> a.id == b.id
    {
      StringOrder(a.id, b.id, a.id);
    }
    forall a: Task, b: Task, c: Task | TaskLe(a, b) && TaskLe(b, c) ensures TaskLe(a, c) {
      StringOrder(a.id, b.id, c.id);
    }
  }

  lemma AcceptedOrder()
    ensures TotalPreorder(AcceptedLe)
    ensures forall a, b :: AcceptedLe(a, b) && AcceptedLe(b, a) ==> a == b
  {
    hide StringLe;
    forall a: AcceptedBlock, b: AcceptedBlock
      ensures AcceptedLe(a, b) || AcceptedLe(b, a)
      ensures AcceptedLe(a, b) && AcceptedLe(b, a) ==> a == b
    {
      StringOrder(a.taskId, b.taskId, a.taskId);
    }
    forall a: AcceptedBlock, b: AcceptedBlock, c: AcceptedBlock | AcceptedLe(a, b) && AcceptedLe(b, c)
      ensures AcceptedLe(a, c)
    {
      StringOrder(a.taskId, b.taskId, c.taskId);
      StringOrder(b.taskId, a.taskId, c.taskId);
      StringOrder(c.taskId, a.taskId, b.taskId);
    }
  }

  lemma BlockOrder()
    ensures TotalPreorder(BlockLe)
    ensures forall a, b :: BlockLe(a, b) && BlockLe(b, a) ==> a == b
  {
    hide StringLe;
    forall a: Block, b: Block
      ensures BlockLe(a, b) || BlockLe(b, a)
      ensures BlockLe(a, b) && BlockLe(b, a) ==> a == b
    {
      StringOrder(a.taskId, b.taskId, a.taskId);
    }
    forall a: Block, b: Block, c: Block | BlockLe(a, b) && BlockLe(b, c) ensures BlockLe(a, c) {
      StringOrder(a.taskId, b.taskId, c.taskId);
    }
  }

  lemma UnscheduledOrder()
    ensures TotalPreorder(UnscheduledLe)
    ensures forall a, b :: UnscheduledLe(a, b) && UnscheduledLe(b, a) ==> a.taskId == b.taskId
  {
    hide StringLe;
    forall a: Unscheduled, b: Unscheduled
      ensures UnscheduledLe(a, b) || UnscheduledLe(b, a)
      ensures UnscheduledLe(a, b) && UnscheduledLe(b, a) ==> a.taskId == b.taskId
    {
      StringOrder(a.taskId, b.taskId, a.taskId);
    }
    forall a: Unscheduled, b: Unscheduled, c: Unscheduled | UnscheduledLe(a, b) && UnscheduledLe(b, c)
      ensures UnscheduledLe(a, c)
    {
      StringOrder(a.taskId, b.taskId, c.taskId);
    }
  }

  // ----- unique ids -----

  lemma SameIdSameTask(tasks: seq<Task>, a: Task, b: Task)
    requires UniqueIds(tasks) && a in tasks && b in tasks
    ensures a.id == b.id ==> a == b
  {
    var i :| 0 <= i < |tasks| && tasks[i] == a;
    var j :| 0 <= j < |tasks| && tasks[j] == b;
    assert i < j ==> DifferentIds(tasks[i], tasks[j]);
    assert j < i ==> DifferentIds(tasks[j], tasks[i]);
  }

  lemma OrderDistinguishes(tasks: seq<Task>, s: seq<Task>)
    requires UniqueIds(tasks) && forall t | t in s :: t in tasks
    ensures Distinguishes(TaskLe, s)
  {
    TaskOrder();
    forall x, y | x in s && y in s && TaskLe(x, y) && TaskLe(y, x) ensures x == y {
      SameIdSameTask(tasks, x, y);
    }
  }

  /** With unique ids the lookup finds the one task of the id, wherever it stands. */
  lemma {:induction false} LookupFinds(tasks: seq<Task>, id: string)
    ensures TaskById(tasks, id).None? <==> forall t | t in tasks :: t.id != id
    ensures TaskById(tasks, id).Some? ==> TaskById(tasks, id).value in tasks && TaskById(tasks, id).value.id == id
  {
    if tasks != [] {
      var init, last := tasks[..|tasks| - 1], tasks[|tasks| - 1];
      LookupFinds(init, id);
      assert last in tasks;
      assert forall t | t in init :: t in tasks;
      forall t | t in tasks ensures t == last || t in init {
      }
    }
  }

  lemma LookupIgnoresOrder(tasks1: seq<Task>, tasks2: seq<Task>, id: string)
    requires UniqueIds(tasks1) && multiset(tasks1) == multiset(tasks2)
    ensures TaskById(tasks1, id) == TaskById(tasks2, id)
  {
    SameElements(tasks1, tasks2);
    LookupFinds(tasks1, id);
    LookupFinds(tasks2, id);
    if TaskById(tasks1, id).Some? {
      SameIdSameTask(tasks1, TaskById(tasks1, id).value, TaskById(tasks2, id).value);
    }
  }

  // ----- permutation invariance -----

  lemma {:induction false} BlockWarningsIgnoreOrder(
    blocks: seq<Block>, k: nat, tasks1: seq<Task>, tasks2: seq<Task>, setting: Setting)
    requires k <= |blocks| && UniqueIds(tasks1) && multiset(tasks1) == multiset(tasks2)
    ensures BlockWarnings(blocks, k, tasks1, setting) == BlockWarnings(blocks, k, tasks2, setting)
  {
    hide PairsWarnings;
    if k > 0 {
      BlockWarningsIgnoreOrder(blocks, k - 1, tasks1, tasks2, setting);
      LookupIgnoresOrder(tasks1, tasks2, blocks[k - 1].taskId);
    }
  }

  lemma {:induction false} ExcessWarningsIgnoreOrder(
    ids: seq<string>, blocks: seq<Block>, tasks1: seq<Task>, tasks2: seq<Task>)
    requires UniqueIds(tasks1) && multiset(tasks1) == multiset(tasks2)
    ensures ExcessWarnings(ids, blocks, tasks1) == ExcessWarnings(ids, blocks, tasks2)
  {
    if ids != [] {
      ExcessWarningsIgnoreOrder(ids[..|ids| - 1], blocks, tasks1, tasks2);
      LookupIgnoresOrder(tasks1, tasks2, ids[|ids| - 1]);
    }
  }

  lemma {:induction false} WarningsIgnoreOrder(
    blocks: seq<Block>, tasks1: seq<Task>, tasks2: seq<Task>, setting: Setting)
    requires UniqueIds(tasks1) && multiset(tasks1) == multiset(tasks2)
    ensures AcceptedWarnings(blocks, tasks1, setting) == AcceptedWarnings(blocks, tasks2, setting)
  {
    BlockWarningsIgnoreOrder(blocks, |blocks|, tasks1, tasks2, setting);
    ExcessWarningsIgnoreOrder(Sort(BlockIds(blocks), StringLe), blocks, tasks1, tasks2);
  }

  lemma OrderedIgnoresOrder(tasks1: seq<Task>, tasks2: seq<Task>)
    requires UniqueIds(tasks1) && multiset(tasks1) == multiset(tasks2)
    ensures OrderedTasks(tasks1) == OrderedTasks(tasks2)
  {
    FilterPermutation(tasks1, tasks2, TaskValid);
    TaskOrder();
    OrderDistinguishes(tasks1, Filter(tasks1, TaskValid));
    SortIgnoresOrder(Filter(tasks1, TaskValid), Filter(tasks2, TaskValid), TaskLe);
  }

  /** A run that starts with other reports ends with other reports and is otherwise the same. */
  ghost predicate SameButReports(a: Run, b: Run) {
    a.managed == b.managed && a.counter == b.counter && a.scheduled == b.scheduled
  }

  /** The reports a run adds to the ones it started with. */
  ghost predicate SameAddedReports(start1: Run, end1: Run, start2: Run, end2: Run) {
    exists added :: end1.unscheduled == start1.unscheduled + added && end2.unscheduled == start2.unscheduled + added
  }

  lemma {:induction false} RunsAlike(
    start1: Run, start2: Run, ordered: seq<Task>, accepted: seq<Block>, setting: Setting)
    requires setting.Valid() && SameButReports(start1, start2)
    ensures SameButReports(RunAll(start1, ordered, accepted, setting), RunAll(start2, ordered, accepted, setting))
    ensures SameAddedReports(start1, RunAll(start1, ordered, accepted, setting),
                             start2, RunAll(start2, ordered, accepted, setting))
  {
    hide Place, Remaining;
    if ordered == [] {
      assert start1.unscheduled == start1.unscheduled + [] && start2.unscheduled == start2.unscheduled + [];
    } else {
      var init, last := ordered[..|ordered| - 1], ordered[|ordered| - 1];
      RunsAlike(start1, start2, init, accepted, setting);
      var mid1, mid2 := RunAll(start1, init, accepted, setting), RunAll(start2, init, accepted, setting);
      var added :| mid1.unscheduled == start1.unscheduled + added && mid2.unscheduled == start2.unscheduled + added;
      TurnAlike(mid1, mid2, last, start1.unscheduled, start2.unscheduled, added, accepted, setting);
    }
  }

  lemma TurnAlike(
    mid1: Run, mid2: Run, task: Task, from1: seq<Unscheduled>, from2: seq<Unscheduled>, added: seq<Unscheduled>,
    accepted: seq<Block>, setting: Setting)
    requires setting.Valid() && SameButReports(mid1, mid2)
    requires mid1.unscheduled == from1 + added && mid2.unscheduled == from2 + added
    ensures var end1, end2 := RunTask(mid1, task, accepted, setting), RunTask(mid2, task, accepted, setting);
      && SameButReports(end1, end2)
      && exists more :: end1.unscheduled == from1 + more && end2.unscheduled == from2 + more
  {
    hide Place, Remaining;
    RemainingNonNegative(task, accepted);
    var end1, end2 := RunTask(mid1, task, accepted, setting), RunTask(mid2, task, accepted, setting);
    var remaining := Remaining(task, accepted);
    if remaining == 0 {
      assert end1.unscheduled == from1 + added && end2.unscheduled == from2 + added;
    } else {
      var p := Place(task, remaining, mid1.managed, mid1.counter, setting);
      var report := if p.remaining != 0 then [Unscheduled(task.id, p.remaining)] else [];
      assert end1.unscheduled == from1 + (added + report) && end2.unscheduled == from2 + (added + report);
    }
  }

  /** Reordering the tasks reorders the reports of the invalid ones. */
  lemma {:induction false} InvalidReportsPermute(tasks1: seq<Task>, tasks2: seq<Task>)
    requires multiset(tasks1) == multiset(tasks2)
    ensures multiset(InvalidReports(tasks1)) == multiset(InvalidReports(tasks2))
    decreases |tasks1|
  {
    SameElements(tasks1, tasks2);
    if tasks1 != [] {
      hide InvalidReports;
      var init, last := tasks1[..|tasks1| - 1], tasks1[|tasks1| - 1];
      assert last in tasks2;
      var k :| 0 <= k < |tasks2| && tasks2[k] == last;
      assert tasks1 == init + [last];
      var rest := TakeOut(tasks2, k);
      InvalidReportsPermute(init, rest);
      InvalidReportsConcat(init, [last]);
    }
  }

  lemma {:induction false} TakeOut(tasks: seq<Task>, k: nat) returns (rest: seq<Task>)
    requires k < |tasks|
    ensures multiset(rest) == multiset(tasks) - multiset{tasks[k]}
    ensures multiset(InvalidReports(tasks)) == multiset(InvalidReports(rest)) + multiset(InvalidReports([tasks[k]]))
  {
    hide InvalidReports;
    var before, after := tasks[..k], tasks[k + 1..];
    rest := before + after;
    assert tasks == before + [tasks[k]] + after;
    InvalidReportsConcat(before + [tasks[k]], after);
    InvalidReportsConcat(before, [tasks[k]]);
    InvalidReportsConcat(before, after);
  }

  lemma {:induction false} InvalidReportsConcat(a: seq<Task>, b: seq<Task>)
    ensures InvalidReports(a + b) == InvalidReports(a) + InvalidReports(b)
  {
    if b == [] {
      assert a + b == a;
    } else {
      assert (a + b)[..|a + b| - 1] == a + b[..|b| - 1];
      InvalidReportsConcat(a, b[..|b| - 1]);
    }
  }

  // ----- every report has an id of its own -----

  predicate DifferentTasks(a: Unscheduled, b: Unscheduled) {
    a.taskId != b.taskId
  }

  /** No two reports of one task, and none of a task still to come. */
  ghost predicate ReportsApart(reports: seq<Unscheduled>, todo: seq<Task>) {
    && Pairwise(reports, DifferentTasks)
    && forall u, t | u in reports && t in todo :: u.taskId != t.id
  }

  lemma {:induction false} InvalidReportsApart(tasks: seq<Task>)
    requires UniqueIds(tasks)
    ensures forall u | u in InvalidReports(tasks) :: exists t | t in tasks :: TaskInvalid(t) && t.id == u.taskId
    ensures Pairwise(InvalidReports(tasks), DifferentTasks)
  {
    hide TaskInvalid;
    if tasks != [] {
      var init, last := tasks[..|tasks| - 1], tasks[|tasks| - 1];
      InvalidReportsApart(init);
      forall u | u in InvalidReports(tasks)
        ensures exists t | t in tasks :: TaskInvalid(t) && t.id == u.taskId
      {
        if u in InvalidReports(init) {
          var t :| t in init && TaskInvalid(t) && t.id == u.taskId;
          assert t in tasks;
        } else {
          assert last in tasks;
        }
      }
      var r := InvalidReports(init);
      forall i | 0 <= i < |r| ensures r[i].taskId != last.id {
        assert r[i] in r;
        var t :| t in init && t.id == r[i].taskId;
        var k :| 0 <= k < |init| && init[k] == t;
        assert DifferentIds(tasks[k], tasks[|tasks| - 1]);
      }
    }
  }

  lemma {:induction false} RunReportsApart(
    start: Run, ordered: seq<Task>, todo: seq<Task>, accepted: seq<Block>, setting: Setting)
    requires setting.Valid() && UniqueIds(ordered + todo)
    requires ReportsApart(start.unscheduled, ordered + todo)
    ensures ReportsApart(RunAll(start, ordered, accepted, setting).unscheduled, todo)
    decreases |ordered|
  {
    hide RunTask;
    if ordered == [] {
      assert ordered + todo == todo;
    } else {
      var init, last := ordered[..|ordered| - 1], ordered[|ordered| - 1];
      assert ordered + todo == init + ([last] + todo);
      RunReportsApart(start, init, [last] + todo, accepted, setting);
      var mid := RunAll(start, init, accepted, setting);
      forall t | t in todo ensures t.id != last.id {
        var k :| 0 <= k < |todo| && todo[k] == t;
        assert DifferentIds((ordered + todo)[|ordered| - 1], (ordered + todo)[|ordered| + k]);
      }
      TurnReportsApart(mid, last, todo, accepted, setting);
    }
  }

  lemma TurnReportsApart(run: Run, task: Task, todo: seq<Task>, accepted: seq<Block>, setting: Setting)
    requires setting.Valid() && ReportsApart(run.unscheduled, [task] + todo)
    requires forall t | t in todo :: t.id != task.id
    ensures ReportsApart(RunTask(run, task, accepted, setting).unscheduled, todo)
  {
    hide Place, Remaining;
    assert task in [task] + todo;
    assert forall t | t in todo :: t in [task] + todo;
    assert forall i | 0 <= i < |run.unscheduled| :: run.unscheduled[i] in run.unscheduled;
  }

  lemma FinalReportsApart(tasks: seq<Task>, accepted: seq<Block>, setting: Setting)
    requires setting.Valid() && UniqueIds(tasks)
    ensures Pairwise(FinalRun(tasks, accepted, setting).unscheduled, DifferentTasks)
  {
    hide TaskInvalid;
    var ordered := OrderedTasks(tasks);
    SameElements(ordered, Filter(tasks, TaskValid));
    FilterUnique(tasks);
    PermutationPairwise(Filter(tasks, TaskValid), Sort(Filter(tasks, TaskValid), TaskLe), DifferentIds);
    InvalidReportsApart(tasks);
    forall u, t | u in InvalidReports(tasks) && t in ordered ensures u.taskId != t.id {
      var v :| v in tasks && TaskInvalid(v) && v.id == u.taskId;
      SameIdSameTask(tasks, v, t);
    }
    assert ordered + [] == ordered;
    RunReportsApart(Start(tasks, accepted, setting), ordered, [], accepted, setting);
  }

  lemma {:induction false} FilterUnique(tasks: seq<Task>)
    requires UniqueIds(tasks)
    ensures UniqueIds(Filter(tasks, TaskValid))
  {
    if tasks != [] {
      var init, last := tasks[..|tasks| - 1], tasks[|tasks| - 1];
      FilterUnique(init);
      var r := Filter(init, TaskValid);
      forall i | 0 <= i < |r| ensures DifferentIds(r[i], last) {
        assert r[i] in init;
        var k :| 0 <= k < |init| && init[k] == r[i];
        assert DifferentIds(tasks[k], tasks[|tasks| - 1]);
      }
    }
  }

  lemma {:induction false} SortedReportsAgree(a: seq<Unscheduled>, b: seq<Unscheduled>)
    requires multiset(a) == multiset(b) && Pairwise(a, DifferentTasks)
    ensures Sort(a, UnscheduledLe) == Sort(b, UnscheduledLe)
  {
    UnscheduledOrder();
    forall x, y | x in a && y in a && UnscheduledLe(x, y) && UnscheduledLe(y, x) ensures x == y {
      var i :| 0 <= i < |a| && a[i] == x;
      var j :| 0 <= j < |a| && a[j] == y;
      assert i < j ==> DifferentTasks(a[i], a[j]);
      assert j < i ==> DifferentTasks(a[j], a[i]);
    }
    SortIgnoresOrder(a, b, UnscheduledLe);
  }

  /**
    Permutation invariance. With unique task ids, reordering the tasks, the free intervals
    and the accepted blocks changes nothing in the outcome.
   */
  lemma {:induction false} ResultIgnoresInputOrder(
    tasks1: seq<Task>, tasks2: seq<Task>, free1: seq<TimeInterval>, free2: seq<TimeInterval>,
    prefs: Preferences, zone: Zone, accepted1: seq<AcceptedBlock>, accepted2: seq<AcceptedBlock>)
    requires UniqueIds(tasks1) && multiset(tasks1) == multiset(tasks2)
    requires multiset(free1) == multiset(free2)
    requires multiset(accepted1) == multiset(accepted2)
    ensures ScheduleTasks(tasks1, free1, prefs, zone, accepted1) == ScheduleTasks(tasks2, free2, prefs, zone, accepted2)
  {
    hide AcceptedWarnings, OrderedTasks, RunAll;
    SameElements(accepted1, accepted2);
    SpanOrder();
    SortIgnoresOrder(free1, free2, SpanLe);
    AcceptedOrder();
    SortIgnoresOrder(accepted1, accepted2, AcceptedLe);
    OrderedIgnoresOrder(tasks1, tasks2);
    if prefs.minimumBreak >= 0 && prefs.defaultMinSession > 0 && AcceptedValid(accepted1) {
      var setting, blocks := SettingOf(free1, prefs, zone), AcceptedBlocks(accepted1);
      WarningsIgnoreOrder(blocks, tasks1, tasks2, setting);
      var start1, start2 := Start(tasks1, blocks, setting), Start(tasks2, blocks, setting);
      RunsAlike(start1, start2, OrderedTasks(tasks1), blocks, setting);
      InvalidReportsPermute(tasks1, tasks2);
      FinalReportsApart(tasks1, blocks, setting);
      SortedReportsAgree(FinalRun(tasks1, blocks, setting).unscheduled, FinalRun(tasks2, blocks, setting).unscheduled);
    }
  }

  // ----- rank non-interference -----

  function NotAfter(task: Task): Task -> bool {
    (t: Task) => TaskLe(t, task)
  }

  function BlockOf(id: string): Block -> bool {
    (b: Block) => b.taskId == id
  }

  /** The blocks of a task in the result. */
  function BlocksOf(blocks: seq<Block>, id: string): seq<Block> {
    Filter(blocks, BlockOf(id))
  }

  /** In task order, the tasks not after a given one come first. */
  ghost predicate Ahead(ahead: seq<Task>, ordered: seq<Task>, task: Task) {
    && ahead <= ordered
    && forall t | t in ordered[|ahead|..] :: !TaskLe(t, task)
  }

  lemma {:induction false} RankedFirst(ordered: seq<Task>, task: Task)
    requires SortedBy(ordered, TaskLe)
    ensures Ahead(Filter(ordered, NotAfter(task)), ordered, task)
  {
    hide TaskLe;
    TaskOrder();
    if ordered != [] {
      var init, last := ordered[..|ordered| - 1], ordered[|ordered| - 1];
      assert ordered == init + [last];
      if TaskLe(last, task) {
        forall t | t in ordered ensures TaskLe(t, task) {
          var k :| 0 <= k < |ordered| && ordered[k] == t;
          assert k == |ordered| - 1 || TaskLe(ordered[k], ordered[|ordered| - 1]);
        }
        FilterAll(ordered, NotAfter(task));
      } else {
        RankedFirst(init, task);
        NotAhead(init, last, task);
      }
    }
  }

  lemma NotAhead(init: seq<Task>, last: Task, task: Task)
    requires Ahead(Filter(init, NotAfter(task)), init, task) && !TaskLe(last, task)
    ensures Ahead(Filter(init + [last], NotAfter(task)), init + [last], task)
  {
    hide TaskLe;
    var ahead := Filter(init, NotAfter(task));
    assert (init + [last])[..|init + [last]| - 1] == init;
    assert Filter(init + [last], NotAfter(task)) == ahead + [] == ahead;
    assert (init + [last])[|ahead|..] == init[|ahead|..] + [last];
  }

  /** Adding tasks that sort after a task leaves the tasks not after it, in order, as they were. */
  lemma SameAhead(tasks1: seq<Task>, tasks2: seq<Task>, extra: seq<Task>, task: Task)
    requires UniqueIds(tasks2) && multiset(tasks2) == multiset(tasks1) + multiset(extra)
    requires forall e | e in extra :: !TaskLe(e, task)
    ensures Filter(OrderedTasks(tasks1), NotAfter(task)) == Filter(OrderedTasks(tasks2), NotAfter(task))
  {
    TaskOrder();
    var o1, o2 := OrderedTasks(tasks1), OrderedTasks(tasks2);
    var p := NotAfter(task);
    SortIsSorted(Filter(tasks1, TaskValid), TaskLe);
    SortIsSorted(Filter(tasks2, TaskValid), TaskLe);
    FilterSorted(o1, p, TaskLe);
    FilterSorted(o2, p, TaskLe);
    forall t ensures multiset(Filter(o1, p))[t] == multiset(Filter(o2, p))[t] {
      FilterCount(o1, p, t);
      FilterCount(o2, p, t);
      FilterCount(tasks1, TaskValid, t);
      FilterCount(tasks2, TaskValid, t);
      assert t in multiset(extra) ==> t in extra;
    }
    SameElements(o2, Filter(tasks2, TaskValid));
    OrderDistinguishes(tasks2, Filter(o2, p));
    SortedUnique(Filter(o2, p), Filter(o1, p), TaskLe);
  }

  /** The blocks of an id do not change while tasks of other ids are placed. */
  lemma {:induction false} OthersAddNoBlocks(
    start: Run, ordered: seq<Task>, id: string, accepted: seq<Block>, setting: Setting)
    requires setting.Valid() && NoneHas(ordered, id)
    ensures BlocksOf(RunAll(start, ordered, accepted, setting).scheduled, id) == BlocksOf(start.scheduled, id)
  {
    hide RunTask;
    if ordered != [] {
      var init, last := ordered[..|ordered| - 1], ordered[|ordered| - 1];
      assert forall t | t in init :: t in ordered;
      OthersAddNoBlocks(start, init, id, accepted, setting);
      OtherAddsNoBlock(RunAll(start, init, accepted, setting), last, id, accepted, setting);
    }
  }

  lemma {:induction false} NoneKept(blocks: seq<Block>, id: string)
    requires forall b | b in blocks :: b.taskId != id
    ensures BlocksOf(blocks, id) == []
  {
    if blocks != [] {
      assert forall b | b in blocks[..|blocks| - 1] :: b in blocks;
      NoneKept(blocks[..|blocks| - 1], id);
    }
  }

  lemma OtherAddsNoBlock(run: Run, task: Task, id: string, accepted: seq<Block>, setting: Setting)
    requires setting.Valid() && task.id != id
    ensures BlocksOf(RunTask(run, task, accepted, setting).scheduled, id) == BlocksOf(run.scheduled, id)
  {
    hide Place, Remaining;
    RemainingNonNegative(task, accepted);
    var remaining := Remaining(task, accepted);
    if remaining != 0 {
      var p := Place(task, remaining, run.managed, run.counter, setting);
      PlaceShape(task, remaining, run.managed, run.counter, setting);
      FilterConcat(run.scheduled, p.blocks, BlockOf(id));
      NoneKept(p.blocks, id);
    }
  }

  /** Sorting two lists with the same blocks of an id gives the same list of its blocks. */
  lemma {:induction false} SortedBlocksAgree(a: seq<Block>, b: seq<Block>, id: string)
    requires BlocksOf(a, id) == BlocksOf(b, id)
    ensures BlocksOf(Sort(a, BlockLe), id) == BlocksOf(Sort(b, BlockLe), id)
  {
    BlockOrder();
    var p := BlockOf(id);
    SortIsSorted(a, BlockLe);
    SortIsSorted(b, BlockLe);
    FilterSorted(Sort(a, BlockLe), p, BlockLe);
    FilterSorted(Sort(b, BlockLe), p, BlockLe);
    FilterPermutation(Sort(a, BlockLe), a, p);
    FilterPermutation(Sort(b, BlockLe), b, p);
    SortedUnique(BlocksOf(Sort(a, BlockLe), id), BlocksOf(Sort(b, BlockLe), id), BlockLe);
  }

  /**
    Rank non-interference. Adding tasks that sort after a task changes neither its blocks nor
    those of any task that does not sort after it.
   */
  lemma {:induction false} LaterTasksDoNotInterfere(
    tasks1: seq<Task>, tasks2: seq<Task>, extra: seq<Task>, task: Task, ranked: Task,
    free: seq<TimeInterval>, prefs: Preferences, zone: Zone, accepted: seq<AcceptedBlock>)
    requires UniqueIds(tasks2) && multiset(tasks2) == multiset(tasks1) + multiset(extra)
    requires forall e | e in extra :: !TaskLe(e, task)
    requires ranked in tasks1 && TaskLe(ranked, task)
    requires Accepts(prefs, accepted)
    ensures BlocksOf(Scheduled(tasks1, free, prefs, zone, accepted).blocks, ranked.id) ==
            BlocksOf(Scheduled(tasks2, free, prefs, zone, accepted).blocks, ranked.id)
  {
    hide AcceptedWarnings, RunAll, OrderedTasks, TaskLe, FinalRun;
    FinalBlocksAgree(tasks1, tasks2, extra, task, ranked, AcceptedBlocks(accepted), SettingOf(free, prefs, zone));
  }

  predicate MoreUrgent(a: Priority, b: Priority) {
    || (a == Urgent && b != Urgent)
    || (a == High && (b == Medium || b == Low))
    || (a == Medium && b == Low)
  }

  /** Due, and the other later or never. No datetime is after the last one. */
  predicate DueBefore(a: Task, b: Task) {
    && a.deadline.Some? && a.deadline.value < LATEST_INSTANT
    && (b.deadline.Some? ==> a.deadline.value < b.deadline.value)
  }

  /** Tasks of lower priority, and those of equal priority that are due later or never, change no block of a task. */
  lemma LowerPriorityDoesNotInterfere(
    tasks1: seq<Task>, tasks2: seq<Task>, extra: seq<Task>, task: Task,
    free: seq<TimeInterval>, prefs: Preferences, zone: Zone, accepted: seq<AcceptedBlock>)
    requires UniqueIds(tasks2) && multiset(tasks2) == multiset(tasks1) + multiset(extra) && task in tasks1
    requires forall e | e in extra ::
      MoreUrgent(task.priority, e.priority) || (task.priority == e.priority && DueBefore(task, e))
    requires Accepts(prefs, accepted)
    ensures BlocksOf(Scheduled(tasks1, free, prefs, zone, accepted).blocks, task.id) ==
            BlocksOf(Scheduled(tasks2, free, prefs, zone, accepted).blocks, task.id)
  {
    hide Scheduled, StringLe, UniqueIds, TaskInvalid;
    StringOrder(task.id, task.id, task.id);
    LaterTasksDoNotInterfere(tasks1, tasks2, extra, task, task, free, prefs, zone, accepted);
  }

  lemma {:induction false} FinalBlocksAgree(
    tasks1: seq<Task>, tasks2: seq<Task>, extra: seq<Task>, task: Task, ranked: Task,
    blocks: seq<Block>, setting: Setting)
    requires UniqueIds(tasks2) && multiset(tasks2) == multiset(tasks1) + multiset(extra)
    requires forall e | e in extra :: !TaskLe(e, task)
    requires ranked in tasks1 && TaskLe(ranked, task) && setting.Valid()
    ensures BlocksOf(Sort(FinalRun(tasks1, blocks, setting).scheduled, BlockLe), ranked.id) ==
            BlocksOf(Sort(FinalRun(tasks2, blocks, setting).scheduled, BlockLe), ranked.id)
  {
    hide RunAll, OrderedTasks, TaskLe, BlocksOf, NoneHas;
    var start1, start2 := Start(tasks1, blocks, setting), Start(tasks2, blocks, setting);
    SameAhead(tasks1, tasks2, extra, task);
    var ahead := Filter(OrderedTasks(tasks1), NotAfter(task));
    assert ranked in multiset(tasks1) && ranked in multiset(tasks2);
    RestHasOtherIds(tasks2, tasks2, task, ranked);
    RestHasOtherIds(tasks1, tasks2, task, ranked);
    RunsAlike(start1, start2, ahead, blocks, setting);
    RunRest(start1, OrderedTasks(tasks1), ahead, ranked.id, blocks, setting);
    RunRest(start2, OrderedTasks(tasks2), ahead, ranked.id, blocks, setting);
    SortedBlocksAgree(
      FinalRun(tasks1, blocks, setting).scheduled, FinalRun(tasks2, blocks, setting).scheduled, ranked.id);
  }

  lemma {:induction false} RunRest(
    start: Run, ordered: seq<Task>, ahead: seq<Task>, id: string, accepted: seq<Block>, setting: Setting)
    requires setting.Valid() && ahead <= ordered && NoneHas(ordered[|ahead|..], id)
    ensures BlocksOf(RunAll(start, ordered, accepted, setting).scheduled, id) ==
            BlocksOf(RunAll(start, ahead, accepted, setting).scheduled, id)
  {
    hide RunAll;
    assert ordered == ahead + ordered[|ahead|..];
    RunConcat(start, ahead, ordered[|ahead|..], accepted, setting);
    OthersAddNoBlocks(RunAll(start, ahead, accepted, setting), ordered[|ahead|..], id, accepted, setting);
  }

  lemma RestHasOtherIds(tasks: seq<Task>, all: seq<Task>, task: Task, ranked: Task)
    requires UniqueIds(all) && ranked in all && TaskLe(ranked, task)
    requires multiset(tasks) <= multiset(all)
    ensures var ahead := Filter(OrderedTasks(tasks), NotAfter(task));
      ahead <= OrderedTasks(tasks) && NoneHas(OrderedTasks(tasks)[|ahead|..], ranked.id)
  {
    TaskOrder();
    var ordered := OrderedTasks(tasks);
    SortIsSorted(Filter(tasks, TaskValid), TaskLe);
    SameElements(ordered, Filter(tasks, TaskValid));
    RankedFirst(ordered, task);
    var rest := ordered[|Filter(ordered, NotAfter(task))|..];
    forall t | t in rest ensures t.id != ranked.id {
      assert t in ordered && t in tasks;
      assert t in multiset(tasks) && t in multiset(all);
      SameIdSameTask(all, t, ranked);
    }
  }
}
