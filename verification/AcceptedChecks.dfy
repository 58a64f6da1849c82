/**
  What `_validate_accepted_blocks` tells: an overlap warning exactly when two accepted
  blocks overlap, and with neither an overlap nor a hard-constraint warning the whole
  result keeps the break between any two blocks.
 */
module AcceptedChecks {
  import opened Sorting
  import opened Orders
  import opened Intervals
  import opened Zones
  import opened Scheduler
  import opened PlaceLoop
  import opened SchedulerTheorems

  ghost predicate Raised(warnings: seq<Warning>, code: WarningCode) {
    exists w | w in warnings :: w.code == code
  }

  ghost predicate SomeOverlap(blocks: seq<Block>, k: nat) {
    exists i, j :: 0 <= i < j < |blocks| && i < k && Overlaps(blocks[i].span, blocks[j].span)
  }

  ghost predicate OverlapsSome(a: Block, others: seq<Block>) {
    exists j :: 0 <= j < |others| && Overlaps(a.span, others[j].span)
  }

  lemma {:induction false} PairsRaise(a: Block, others: seq<Block>, setting: Setting)
    ensures Raised(PairsWarnings(a, others, setting), BlocksOverlap) <==> OverlapsSome(a, others)
  {
    if others != [] {
      hide Overlaps, PairWarnings;
      var init, last := others[..|others| - 1], others[|others| - 1];
      PairsRaise(a, init, setting);
      RaisedConcat(PairsWarnings(a, init, setting), PairWarnings(a, last, setting), BlocksOverlap);
      PairRaises(a, last, setting);
      OverlapsNext(a, others);
    }
  }

  lemma PairRaises(a: Block, b: Block, setting: Setting)
    ensures Raised(PairWarnings(a, b, setting), BlocksOverlap) <==> Overlaps(a.span, b.span)
  {
    var ws := PairWarnings(a, b, setting);
    if Overlaps(a.span, b.span) {
      assert ws[0] in ws;
    }
  }

  lemma OverlapsNext(a: Block, others: seq<Block>)
    requires others != []
    ensures OverlapsSome(a, others) <==>
            OverlapsSome(a, others[..|others| - 1]) || Overlaps(a.span, others[|others| - 1].span)
  {
    hide Overlaps;
    var init := others[..|others| - 1];
    if OverlapsSome(a, init) {
      var j :| 0 <= j < |init| && Overlaps(a.span, init[j].span);
      assert others[j] == init[j];
    }
    if OverlapsSome(a, others) {
      var j :| 0 <= j < |others| && Overlaps(a.span, others[j].span);
      assert j < |init| ==> init[j] == others[j];
    }
  }

  lemma {:induction false} PairsKept(a: Block, others: seq<Block>, setting: Setting, j: nat)
    requires j < |others|
    ensures forall w | w in PairWarnings(a, others[j], setting) :: w in PairsWarnings(a, others, setting)
  {
    hide PairWarnings;
    if j < |others| - 1 {
      PairsKept(a, others[..|others| - 1], setting, j);
    }
  }

  lemma OwnRaisesNoOverlap(a: Block, tasks: seq<Task>, setting: Setting)
    ensures !Raised(OwnWarnings(a, tasks, setting), BlocksOverlap)
  {
    hide Within, TaskById, TaskInvalid, OutsideTaskWindow;
  }

  lemma {:induction false} BlocksRaise(blocks: seq<Block>, k: nat, tasks: seq<Task>, setting: Setting)
    requires k <= |blocks|
    ensures Raised(BlockWarnings(blocks, k, tasks, setting), BlocksOverlap) <==> SomeOverlap(blocks, k)
  {
    hide PairsWarnings, OwnWarnings, SomeOverlap, OverlapsSome;
    if k == 0 {
      NoOverlapYet(blocks);
    } else {
      BlocksRaise(blocks, k - 1, tasks, setting);
      var a, others := blocks[k - 1], blocks[k..];
      PairsRaise(a, others, setting);
      var before, own, pairs :=
        BlockWarnings(blocks, k - 1, tasks, setting), OwnWarnings(a, tasks, setting), PairsWarnings(a, others, setting);
      RaisedConcat(before + own, pairs, BlocksOverlap);
      RaisedConcat(before, own, BlocksOverlap);
      OwnRaisesNoOverlap(a, tasks, setting);
      SomeOverlapNext(blocks, k);
    }
  }

  lemma NoOverlapYet(blocks: seq<Block>)
    ensures !SomeOverlap(blocks, 0)
  {
  }

  lemma SomeOverlapNext(blocks: seq<Block>, k: nat)
    requires 0 < k <= |blocks|
    ensures SomeOverlap(blocks, k) <==> SomeOverlap(blocks, k - 1) || OverlapsSome(blocks[k - 1], blocks[k..])
  {
    hide Overlaps;
    var others := blocks[k..];
    if SomeOverlap(blocks, k) {
      var i, j :| 0 <= i < j < |blocks| && i < k && Overlaps(blocks[i].span, blocks[j].span);
      assert i == k - 1 ==> others[j - k] == blocks[j];
    }
    if OverlapsSome(blocks[k - 1], others) {
      var j :| 0 <= j < |others| && Overlaps(blocks[k - 1].span, others[j].span);
      assert blocks[k + j] == others[j];
    }
  }

  lemma RaisedConcat(a: seq<Warning>, b: seq<Warning>, code: WarningCode)
    ensures Raised(a + b, code) <==> Raised(a, code) || Raised(b, code)
  {
    if Raised(a, code) {
      var w :| w in a && w.code == code;
      assert w in a + b;
    }
    if Raised(b, code) {
      var w :| w in b && w.code == code;
      assert w in a + b;
    }
  }

  /** The warning of any pair is among the warnings. */
  lemma {:induction false} PairIsReported(
    blocks: seq<Block>, k: nat, tasks: seq<Task>, setting: Setting, i: nat, j: nat)
    requires i < k <= |blocks| && i < j < |blocks|
    ensures forall w | w in PairWarnings(blocks[i], blocks[j], setting) :: w in BlockWarnings(blocks, k, tasks, setting)
  {
    hide PairsWarnings, PairWarnings, OwnWarnings;
    if i == k - 1 {
      assert blocks[k..][j - k] == blocks[j];
      PairsKept(blocks[i], blocks[k..], setting, j - k);
    } else {
      PairIsReported(blocks, k - 1, tasks, setting, i, j);
    }
  }

  lemma {:induction false} ExcessIsHard(ids: seq<string>, blocks: seq<Block>, tasks: seq<Task>)
    ensures forall w | w in ExcessWarnings(ids, blocks, tasks) :: w.code == HardConstraint
  {
    if ids != [] {
      ExcessIsHard(ids[..|ids| - 1], blocks, tasks);
    }
  }

  /** The overlap warning is exact. */
  lemma {:induction false} OverlapWarningIsExact(
    tasks: seq<Task>, free: seq<TimeInterval>, prefs: Preferences, zone: Zone, accepted: seq<AcceptedBlock>)
    requires Accepts(prefs, accepted)
    ensures Raised(Scheduled(tasks, free, prefs, zone, accepted).warnings, BlocksOverlap) <==>
            var blocks := AcceptedBlocks(accepted);
            exists i, j :: 0 <= i < j < |blocks| && Overlaps(blocks[i].span, blocks[j].span)
  {
    hide FinalRun, BlockWarnings, ExcessWarnings;
    var setting, blocks := SettingOf(free, prefs, zone), AcceptedBlocks(accepted);
    var warnings := AcceptedWarnings(blocks, tasks, setting);
    SameElements(Sort(warnings, WarningLe), warnings);
    BlocksRaise(blocks, |blocks|, tasks, setting);
    var ids := Sort(BlockIds(blocks), StringLe);
    ExcessIsHard(ids, blocks, tasks);
    RaisedConcat(BlockWarnings(blocks, |blocks|, tasks, setting), ExcessWarnings(ids, blocks, tasks), BlocksOverlap);
    assert Raised(Sort(warnings, WarningLe), BlocksOverlap) <==> Raised(warnings, BlocksOverlap);
  }

  function KeepsGap(gap: int): (Block, Block) -> bool {
    (a: Block, b: Block) => BlocksApart(a, b, gap)
  }

  /** Without overlap and hard-constraint warnings, any two blocks of the result keep the break. */
  lemma {:induction false} QuietResultIsSeparated(
    tasks: seq<Task>, free: seq<TimeInterval>, prefs: Preferences, zone: Zone, accepted: seq<AcceptedBlock>)
    requires Accepts(prefs, accepted)
    ensures var r := Scheduled(tasks, free, prefs, zone, accepted);
      !Raised(r.warnings, BlocksOverlap) && !Raised(r.warnings, HardConstraint) ==>
        Pairwise(r.blocks, KeepsGap(prefs.minimumBreak * MINUTE))
  {
    hide Scheduled;
    var w := Scheduled(tasks, free, prefs, zone, accepted).warnings;
    if !Raised(w, BlocksOverlap) && !Raised(w, HardConstraint) {
      QuietMeansSeparated(tasks, free, prefs, zone, accepted);
    }
  }

  lemma {:induction false} QuietMeansSeparated(
    tasks: seq<Task>, free: seq<TimeInterval>, prefs: Preferences, zone: Zone, accepted: seq<AcceptedBlock>)
    requires Accepts(prefs, accepted)
    requires var w := Scheduled(tasks, free, prefs, zone, accepted).warnings;
      !Raised(w, BlocksOverlap) && !Raised(w, HardConstraint)
    ensures Pairwise(Scheduled(tasks, free, prefs, zone, accepted).blocks, KeepsGap(prefs.minimumBreak * MINUTE))
  {
    hide FinalRun, BlockWarnings, ExcessWarnings, SoundBlock;
    var setting, blocks := SettingOf(free, prefs, zone), AcceptedBlocks(accepted);
    var gap := setting.Break();
    var run := FinalRun(tasks, blocks, setting);
    KeepsAccepted(tasks, blocks, setting);
    FinalSound(tasks, blocks, setting);
    forall i, j | 0 <= i < j < |run.scheduled| ensures KeepsGap(gap)(run.scheduled[i], run.scheduled[j]) {
      if j < |blocks| {
        AcceptedPairApart(blocks, tasks, setting, i, j);
        assert run.scheduled[i] == blocks[i] && run.scheduled[j] == blocks[j];
      } else {
        assert Apart(run.managed[i], run.managed[j], gap);
      }
    }
    PermutationPairwise(run.scheduled, Sort(run.scheduled, BlockLe), KeepsGap(gap));
  }

  lemma {:induction false} AcceptedPairApart(blocks: seq<Block>, tasks: seq<Task>, setting: Setting, i: nat, j: nat)
    requires i < j < |blocks|
    ensures var w := Sort(AcceptedWarnings(blocks, tasks, setting), WarningLe);
      Raised(w, BlocksOverlap) || Raised(w, HardConstraint) || BlocksApart(blocks[i], blocks[j], setting.Break())
  {
    hide BlockWarnings, ExcessWarnings;
    var warnings := AcceptedWarnings(blocks, tasks, setting);
    SameElements(Sort(warnings, WarningLe), warnings);
    PairIsReported(blocks, |blocks|, tasks, setting, i, j);
    var pair := PairWarnings(blocks[i], blocks[j], setting);
    if pair != [] {
      assert pair[0] in pair;
      assert pair[0] in warnings;
      assert pair[0] in Sort(warnings, WarningLe);
    }
  }
}
