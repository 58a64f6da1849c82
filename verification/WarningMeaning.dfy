/**
  What the warnings about accepted blocks mean: each is raised exactly when some accepted block,
  some pair of them, or the total of a task gives cause.
 */
module WarningMeaning {
  import opened Prelude
  import opened Sorting
  import opened Orders
  import opened Intervals
  import opened Zones
  import opened Scheduler

  // ----- causes -----

  /** The task an id stands for: the last one given with it. */
  predicate StandsFor(tasks: seq<Task>, id: string, k: int) {
    0 <= k < |tasks| && tasks[k].id == id && forall j :: k < j < |tasks| ==> tasks[j].id != id
  }

  /** A block of a task that was not given. */
  predicate IsUnknown(b: Block, tasks: seq<Task>) {
    forall t | t in tasks :: t.id != b.taskId
  }

  /** A block inside no free interval. */
  predicate IsOutside(b: Block, free: seq<TimeInterval>) {
    forall f | f in free :: b.span.start < f.start || f.end < b.span.end
  }

  /** A block of an invalid task, or before its earliest start or after its deadline. */
  ghost predicate BreaksTask(b: Block, tasks: seq<Task>) {
    exists k :: StandsFor(tasks, b.taskId, k) &&
      (TaskInvalid(tasks[k])
       || (tasks[k].earliest.Some? && b.span.start < tasks[k].earliest.value)
       || (tasks[k].deadline.Some? && tasks[k].deadline.value < b.span.end))
  }

  /** More minutes accepted than the task has. */
  ghost predicate TooMuch(id: string, blocks: seq<Block>, tasks: seq<Task>) {
    (exists b | b in blocks :: b.taskId == id) &&
    exists k :: StandsFor(tasks, id, k) && Minutes(blocks, id) > tasks[k].duration
  }

  /** The two ids in order. */
  predicate AreIds(ids: seq<string>, a: Block, b: Block) {
    && |ids| == 2 && multiset(ids) == multiset{a.taskId, b.taskId} && StringLe(ids[0], ids[1])
  }

  /** Not overlapping, and less than the break apart. */
  predicate CloserThan(a: TimeInterval, b: TimeInterval, gap: int) {
    !Overlaps(a, b) && !Apart(a, b, gap)
  }

  /** Blocks i and j of the list. */
  ghost predicate PairGives(w: Warning, blocks: seq<Block>, i: int, j: int, gap: int) {
    && 0 <= i < j < |blocks| && AreIds(w.taskIds, blocks[i], blocks[j])
    && ((w.code == BlocksOverlap && Overlaps(blocks[i].span, blocks[j].span))
        || (w.code == HardConstraint && CloserThan(blocks[i].span, blocks[j].span, gap)))
  }

  ghost predicate BlockGives(w: Warning, b: Block, tasks: seq<Task>, free: seq<TimeInterval>) {
    && w.taskIds == [b.taskId]
    && ((w.code == UnknownTask && IsUnknown(b, tasks))
        || (w.code == OutsideFreeTime && IsOutside(b, free))
        || (w.code == HardConstraint && BreaksTask(b, tasks)))
  }

  ghost predicate TotalGives(w: Warning, id: string, blocks: seq<Block>, tasks: seq<Task>) {
    w == Warning(HardConstraint, [id]) && TooMuch(id, blocks, tasks)
  }

  /** There is cause for the warning. */
  ghost predicate Cause(w: Warning, blocks: seq<Block>, tasks: seq<Task>, free: seq<TimeInterval>, gap: int) {
    || (exists b | b in blocks :: BlockGives(w, b, tasks, free))
    || (exists i, j :: PairGives(w, blocks, i, j, gap))
    || (exists id :: TotalGives(w, id, blocks, tasks))
  }

  // ----- each part -----

  lemma {:induction false} LookupStands(tasks: seq<Task>, id: string)
    ensures TaskById(tasks, id).None? <==> forall t | t in tasks :: t.id != id
    ensures forall k | StandsFor(tasks, id, k) :: TaskById(tasks, id) == Some(tasks[k])
    ensures TaskById(tasks, id).Some? ==> exists k :: StandsFor(tasks, id, k)
  {
    if tasks != [] {
      var n := |tasks| - 1;
      var init, last := tasks[..n], tasks[n];
      LookupStands(init, id);
      assert forall t | t in tasks :: t == last || t in init;
      if last.id == id {
        assert StandsFor(tasks, id, n);
      } else {
        forall k ensures StandsFor(tasks, id, k) <==> StandsFor(init, id, k) {
        }
      }
    }
  }

  lemma OwnMeans(w: Warning, b: Block, tasks: seq<Task>, setting: Setting)
    ensures w in OwnWarnings(b, tasks, setting) <==> BlockGives(w, b, tasks, setting.free)
  {
    hide TaskById, TaskInvalid, StandsFor;
    LookupStands(tasks, b.taskId);
    if TaskById(tasks, b.taskId).Some? {
      var k :| StandsFor(tasks, b.taskId, k);
      KnownTask(tasks, b.taskId, k);
    }
    assert IsOutside(b, setting.free) <==> !exists f | f in setting.free :: Within(b.span, f);
  }

  lemma KnownTask(tasks: seq<Task>, id: string, k: int)
    requires StandsFor(tasks, id, k)
    ensures 0 <= k < |tasks| && tasks[k] in tasks && tasks[k].id == id
  {
  }

  lemma PairMeans(w: Warning, blocks: seq<Block>, i: int, j: int, setting: Setting)
    requires 0 <= i < j < |blocks| && setting.Valid()
    ensures w in PairWarnings(blocks[i], blocks[j], setting) <==> PairGives(w, blocks, i, j, setting.Break())
  {
    hide StringLe;
    var a, b := blocks[i], blocks[j];
    IdsAreOrdered(w.taskIds, a, b);
  }

  lemma IdsAreOrdered(ids: seq<string>, a: Block, b: Block)
    ensures AreIds(ids, a, b) <==> ids == IdPair(a.taskId, b.taskId)
  {
    hide StringLe;
    StringOrder(a.taskId, b.taskId, a.taskId);
    StringOrder(b.taskId, a.taskId, b.taskId);
    if AreIds(ids, a, b) {
      assert ids == [ids[0], ids[1]];
      TwoAlike(ids[0], ids[1], a.taskId, b.taskId);
    }
    assert multiset(IdPair(a.taskId, b.taskId)) == multiset{a.taskId, b.taskId};
  }

  lemma TwoAlike(x: string, y: string, a: string, b: string)
    requires multiset([x, y]) == multiset{a, b}
    ensures (x == a && y == b) || (x == b && y == a)
  {
    assert multiset([x, y]) == multiset{x, y};
    assert x in multiset{a, b} && y in multiset{a, b};
    if x == y {
      assert multiset{x, y}[x] == 2;
    }
  }

  ghost predicate AnyPairGives(w: Warning, blocks: seq<Block>, k: int, gap: int) {
    exists i, j :: i < k && PairGives(w, blocks, i, j, gap)
  }

  ghost predicate RowGives(w: Warning, blocks: seq<Block>, i: int, n: int, gap: int) {
    exists j :: j < n && PairGives(w, blocks, i, j, gap)
  }

  lemma {:induction false} PairsMean(w: Warning, blocks: seq<Block>, i: int, n: int, setting: Setting)
    requires 0 <= i < n <= |blocks| && setting.Valid()
    ensures w in PairsWarnings(blocks[i], blocks[i + 1..n], setting) <==>
            RowGives(w, blocks, i, n, setting.Break())
    decreases n
  {
    hide PairGives, PairWarnings;
    if n == i + 1 {
      assert blocks[i + 1..n] == [];
      forall j | j < n ensures !PairGives(w, blocks, i, j, setting.Break()) {
        NoPairBefore(w, blocks, i, j, setting.Break());
      }
    } else {
      assert blocks[i + 1..n][..n - i - 2] == blocks[i + 1..n - 1];
      PairsMean(w, blocks, i, n - 1, setting);
      PairMeans(w, blocks, i, n - 1, setting);
    }
  }

  lemma NoPairBefore(w: Warning, blocks: seq<Block>, i: int, j: int, gap: int)
    requires j <= i
    ensures !PairGives(w, blocks, i, j, gap)
  {
  }

  lemma PairInRange(w: Warning, blocks: seq<Block>, i: int, j: int, gap: int)
    requires PairGives(w, blocks, i, j, gap)
    ensures 0 <= i < j < |blocks|
  {
  }

  lemma {:induction false} BlockWarningsMean(w: Warning, blocks: seq<Block>, k: nat, tasks: seq<Task>, setting: Setting)
    requires k <= |blocks| && setting.Valid()
    ensures w in BlockWarnings(blocks, k, tasks, setting) <==>
            (exists b | b in blocks[..k] :: BlockGives(w, b, tasks, setting.free)) ||
            AnyPairGives(w, blocks, k, setting.Break())
  {
    hide OwnWarnings, PairsWarnings, BlockGives, PairGives;
    if k == 0 {
      forall i, j | i < 0 ensures !PairGives(w, blocks, i, j, setting.Break()) {
        if PairGives(w, blocks, i, j, setting.Break()) {
          PairInRange(w, blocks, i, j, setting.Break());
        }
      }
    } else {
      BlockWarningsMean(w, blocks, k - 1, tasks, setting);
      OwnMeans(w, blocks[k - 1], tasks, setting);
      PairsMean(w, blocks, k - 1, |blocks|, setting);
      assert blocks[k..|blocks|] == blocks[k..];
      assert blocks[..k] == blocks[..k - 1] + [blocks[k - 1]];
      PairsSplit(w, blocks, k, setting.Break());
    }
  }

  lemma PairsSplit(w: Warning, blocks: seq<Block>, k: nat, gap: int)
    requires 0 < k <= |blocks|
    ensures AnyPairGives(w, blocks, k, gap) <==>
            AnyPairGives(w, blocks, k - 1, gap) || RowGives(w, blocks, k - 1, |blocks|, gap)
  {
    hide PairGives;
    if AnyPairGives(w, blocks, k, gap) {
      var i, j :| i < k && PairGives(w, blocks, i, j, gap);
      PairInRange(w, blocks, i, j, gap);
    }
  }

  lemma {:induction false} IdsOccur(blocks: seq<Block>)
    ensures forall id :: id in BlockIds(blocks) <==> exists b | b in blocks :: b.taskId == id
  {
    if blocks != [] {
      var init, last := blocks[..|blocks| - 1], blocks[|blocks| - 1];
      IdsOccur(init);
      assert forall b | b in blocks :: b == last || b in init;
      assert last in blocks && forall b | b in init :: b in blocks;
    }
  }

  lemma {:induction false} ExcessMeans(w: Warning, ids: seq<string>, blocks: seq<Block>, tasks: seq<Task>)
    requires forall id | id in ids :: exists b | b in blocks :: b.taskId == id
    ensures w in ExcessWarnings(ids, blocks, tasks) <==> exists id | id in ids :: TotalGives(w, id, blocks, tasks)
  {
    hide Minutes, TaskById, StandsFor;
    if ids != [] {
      var init, last := ids[..|ids| - 1], ids[|ids| - 1];
      assert last in ids && forall id | id in init :: id in ids;
      assert forall id | id in ids :: id == last || id in init;
      ExcessMeans(w, init, blocks, tasks);
      LookupStands(tasks, last);
      if TaskById(tasks, last).Some? {
        var k :| StandsFor(tasks, last, k);
        KnownTask(tasks, last, k);
      }
    }
  }

  /** The warnings of a call are exactly those there is cause for among the accepted blocks. */
  lemma {:induction false} WarningsHaveCause(
    tasks: seq<Task>, free: seq<TimeInterval>, prefs: Preferences, zone: Zone, accepted: seq<AcceptedBlock>, w: Warning)
    requires Accepts(prefs, accepted)
    ensures w in Scheduled(tasks, free, prefs, zone, accepted).warnings <==>
            Cause(w, AcceptedBlocks(accepted), tasks, free, prefs.minimumBreak * MINUTE)
  {
    hide FinalRun, BlockWarnings, ExcessWarnings, BlockGives, PairGives, TotalGives, AcceptedBlocks, Sort;
    var setting, blocks := SettingOf(free, prefs, zone), AcceptedBlocks(accepted);
    var warnings := AcceptedWarnings(blocks, tasks, setting);
    SameElements(Sort(warnings, WarningLe), warnings);
    BlockWarningsMean(w, blocks, |blocks|, tasks, setting);
    assert blocks[..|blocks|] == blocks;
    var ids := Sort(BlockIds(blocks), StringLe);
    SameElements(ids, BlockIds(blocks));
    IdsOccur(blocks);
    ExcessMeans(w, ids, blocks, tasks);
    SortedFreeGives(w, blocks, tasks, free);
    forall id | TotalGives(w, id, blocks, tasks) ensures id in ids {
      TotalOccurs(w, id, blocks, tasks);
    }
    forall i, j | PairGives(w, blocks, i, j, setting.Break()) ensures i < |blocks| {
      PairInRange(w, blocks, i, j, setting.Break());
    }
  }

  lemma TotalOccurs(w: Warning, id: string, blocks: seq<Block>, tasks: seq<Task>)
    requires TotalGives(w, id, blocks, tasks)
    ensures exists b | b in blocks :: b.taskId == id
  {
    hide Minutes;
  }

  lemma SortedFreeGives(w: Warning, blocks: seq<Block>, tasks: seq<Task>, free: seq<TimeInterval>)
    ensures forall b :: BlockGives(w, b, tasks, Sort(free, SpanLe)) <==> BlockGives(w, b, tasks, free)
  {
    hide BreaksTask;
    SameElements(Sort(free, SpanLe), free);
  }

  // ----- their order -----

  /** What the codes have in common. */
  const STEM: string := "accepted_block"

  /** The rest of a code's text. */
  function Tail(code: WarningCode): string {
    match code
    case HardConstraint => "_conflicts_hard_constraint"
    case OutsideFreeTime => "_outside_free_time"
    case UnknownTask => "_unknown_task"
    case BlocksOverlap => "s_overlap"
  }

  function CodeText(code: WarningCode): string {
    STEM + Tail(code)
  }

  lemma {:induction false} SameStem(stem: string, a: string, b: string)
    ensures StringLe(stem + a, stem + b) <==> StringLe(a, b)
  {
    if stem == [] {
      assert stem + a == a && stem + b == b;
    } else {
      SameStem(stem[1..], a, b);
      assert (stem + a)[1..] == stem[1..] + a && (stem + b)[1..] == stem[1..] + b;
    }
  }

  /** The first two letters decide. */
  lemma DecidedEarly(a: string, b: string)
    requires |a| >= 2 && |b| >= 2 && (a[0] != b[0] || a[1] != b[1])
    ensures StringLe(a, b) <==> a[0] < b[0] || (a[0] == b[0] && a[1] < b[1])
  {
    var p, q := a[1..], b[1..];
    assert p[0] == a[1] && q[0] == b[1];
    assert p[0] != q[0] ==> (LexLe(p, q, CharLe) <==> CharLe(p[0], q[0]));
  }

  /** By the text of the code, then by the ids. */
  predicate TextLe(a: Warning, b: Warning) {
    if a.code != b.code then StringLe(CodeText(a.code), CodeText(b.code)) else TupleLe(a.taskIds, b.taskIds)
  }

  lemma TextDecides(a: Warning, b: Warning)
    ensures WarningLe(a, b) <==> TextLe(a, b)
  {
    hide StringLe, TupleLe;
    if a.code != b.code {
      SameStem(STEM, Tail(a.code), Tail(b.code));
      DecidedEarly(Tail(a.code), Tail(b.code));
    }
  }

  /** The warnings of a call come in the order of their codes' texts, those of one code in that of their ids. */
  lemma WarningsAreOrdered(
    tasks: seq<Task>, free: seq<TimeInterval>, prefs: Preferences, zone: Zone, accepted: seq<AcceptedBlock>)
    requires Accepts(prefs, accepted)
    ensures var w := Scheduled(tasks, free, prefs, zone, accepted).warnings;
      forall i, j :: 0 <= i < j < |w| ==> TextLe(w[i], w[j])
  {
    hide FinalRun, AcceptedWarnings, AcceptedBlocks, Sort, TextLe, WarningLe;
    var setting, blocks := SettingOf(free, prefs, zone), AcceptedBlocks(accepted);
    WarningOrder();
    SortIsSorted(AcceptedWarnings(blocks, tasks, setting), WarningLe);
    forall a, b ensures WarningLe(a, b) <==> TextLe(a, b) {
      TextDecides(a, b);
    }
  }

  lemma WarningOrder()
    ensures TotalPreorder(WarningLe)
  {
    hide LexLe;
    StringsTotal();
    forall a, b, c: Warning
      ensures WarningLe(a, b) || WarningLe(b, a)
      ensures WarningLe(a, b) && WarningLe(b, c) ==> WarningLe(a, c)
    {
      LexTotal(a.taskIds, b.taskIds, StringLe);
      if TupleLe(a.taskIds, b.taskIds) && TupleLe(b.taskIds, c.taskIds) {
        LexTransitive(a.taskIds, b.taskIds, c.taskIds, StringLe);
      }
    }
  }

  lemma StringsTotal()
    ensures TotalOrder(StringLe)
  {
    hide StringLe;
    forall a, b, c: string
      ensures StringLe(a, b) || StringLe(b, a)
      ensures StringLe(a, b) && StringLe(b, a) ==> a == b
      ensures StringLe(a, b) && StringLe(b, c) ==> StringLe(a, c)
    {
      StringOrder(a, b, c);
    }
  }
}
