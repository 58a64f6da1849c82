/**
  app/services/scheduling.py and `_validate_preview` of app/schedule_plans/service.py: a
  preview is free time, then scheduling; a plan is made from a preview that passes validation.
 */
module Preview {
  import opened Prelude
  import opened Sorting
  import opened Intervals
  import opened Zones
  import Availability
  import Revalidation
  import Scheduler
  import SchedulerLoop

  // ----- validating a preview -----

  /** SCHEDULER_VERSION. */
  const SCHEDULER_VERSION := "2a.1"

  datatype PreviewBlock = PreviewBlock(start: int, end: int, aware: bool) {
    function Minutes(): int {
      (end - start) / MINUTE
    }
  }

  datatype PreviewResponse = PreviewResponse(version: string, window: Span, blocks: seq<PreviewBlock>)

  datatype Context = Context(version: string, window: Span)

  /** A block as it is stored. */
  datatype Normalized = Normalized(start: int, end: int, minutes: int)

  datatype PreviewError =
    | NaiveDatetime
    | NoBlocks
    | VersionMismatch
    | WindowMismatch
    | StartNotBeforeEnd
    | OutsideWindow
    | BlocksOverlap
    | NotWholeMinutes
    | NotPositive
    | ExceedsDuration

  predicate PreviewBlockLe(a: PreviewBlock, b: PreviewBlock) {
    a.start < b.start || (a.start == b.start && a.end <= b.end)
  }

  /** What the loop objects to in a block, given the end of the one before it. */
  function BlockError(b: PreviewBlock, previousEnd: Option<int>, window: Span): Option<PreviewError> {
    if b.start >= b.end then Some(StartNotBeforeEnd)
    else if b.start < window.start || b.end > window.end then Some(OutsideWindow)
    else if previousEnd.Some? && b.start < previousEnd.value then Some(BlocksOverlap)
    else if (b.end - b.start) % MINUTE != 0 then Some(NotWholeMinutes)
    else if b.Minutes() <= 0 then Some(NotPositive)
    else None
  }

  function LastEnd(blocks: seq<PreviewBlock>): Option<int> {
    if blocks == [] then None else Some(blocks[|blocks| - 1].end)
  }

  function Normalize(b: PreviewBlock): Normalized {
    Normalized(b.start, b.end, b.Minutes())
  }

  /** The blocks as stored, or the first objection. */
  function CheckBlocks(blocks: seq<PreviewBlock>, window: Span): Result<seq<Normalized>, PreviewError> {
    if blocks == [] then Ok([])
    else
      var init, last := blocks[..|blocks| - 1], blocks[|blocks| - 1];
      var earlier := CheckBlocks(init, window);
      if earlier.Err? then earlier
      else
        var error := BlockError(last, LastEnd(init), window);
        if error.Some? then Err(error.value) else Ok(earlier.value + [Normalize(last)])
  }

  function StoredMinutes(s: Normalized): int {
    s.minutes
  }

  function MinutesOf(sessions: seq<Normalized>): seq<int> {
    seq(|sessions|, i requires 0 <= i < |sessions| => sessions[i].minutes)
  }

  /** `_validate_preview`. */
  function Validated(duration: Option<int>, preview: PreviewResponse, context: Context)
    : Result<seq<Normalized>, PreviewError>
  {
    if exists b | b in preview.blocks :: !b.aware then Err(NaiveDatetime)
    else if preview.blocks == [] then Err(NoBlocks)
    else if preview.version != context.version then Err(VersionMismatch)
    else if preview.window != context.window then Err(WindowMismatch)
    else
      var checked := CheckBlocks(Sort(preview.blocks, PreviewBlockLe), context.window);
      if checked.Err? then checked
      else if duration.Some? && SumBy(checked.value, StoredMinutes) > duration.value then Err(ExceedsDuration)
      else checked
  }

  // _validate_preview
  method ValidatePreview(duration: Option<int>, preview: PreviewResponse, context: Context)
    returns (r: Result<seq<Normalized>, PreviewError>)
    ensures r == Validated(duration, preview, context)
  {
    if exists b | b in preview.blocks :: !b.aware {
      return Err(NaiveDatetime);
    }
    var blocks := Sort(preview.blocks, PreviewBlockLe);
    if blocks == [] {
      return Err(NoBlocks);
    }
    if preview.version != context.version {
      return Err(VersionMismatch);
    }
    if preview.window != context.window {
      return Err(WindowMismatch);
    }
    r := CheckEach(blocks, context.window);
    if r.Ok? {
      var totalDuration := SumBy(r.value, StoredMinutes);
      if duration.Some? && totalDuration > duration.value {
        return Err(ExceedsDuration);
      }
    }
  }

  /** The loop of `_validate_preview`, with its `previous_end`. */
  method CheckEach(blocks: seq<PreviewBlock>, window: Span) returns (r: Result<seq<Normalized>, PreviewError>)
    ensures r == CheckBlocks(blocks, window)
  {
    var normalized: seq<Normalized> := [];
    var previousEnd: Option<int> := None;
    for i := 0 to |blocks|
      invariant CheckBlocks(blocks[..i], window) == Ok(normalized)
      invariant previousEnd == LastEnd(blocks[..i])
    {
      var block := blocks[i];
      assert blocks[..i + 1][..i] == blocks[..i];
      var error := BlockError(block, previousEnd, window);
      if error.Some? {
        FirstObjection(blocks, i + 1, window);
        return Err(error.value);
      }
      normalized := normalized + [Normalize(block)];
      previousEnd := Some(block.end);
    }
    assert blocks[..|blocks|] == blocks;
    return Ok(normalized);
  }

  /** Later blocks do not hide an objection. */
  lemma {:induction false} FirstObjection(blocks: seq<PreviewBlock>, k: nat, window: Span)
    requires k <= |blocks| && CheckBlocks(blocks[..k], window).Err?
    ensures CheckBlocks(blocks, window) == CheckBlocks(blocks[..k], window)
  {
    if k == |blocks| {
      assert blocks[..k] == blocks;
    } else {
      assert blocks[..|blocks| - 1][..k] == blocks[..k];
      FirstObjection(blocks[..|blocks| - 1], k, window);
    }
  }

  // ----- what validation accepts -----

  predicate GoodBlock(b: PreviewBlock, window: Span) {
    && b.aware
    && b.start < b.end
    && window.start <= b.start && b.end <= window.end
    && (b.end - b.start) % MINUTE == 0
  }

  predicate Disjoint(a: PreviewBlock, b: PreviewBlock) {
    a.end <= b.start || b.end <= a.start
  }

  function BlockMinutes(b: PreviewBlock): int {
    b.Minutes()
  }

  /** In terms of the blocks as given: each good, any two disjoint, and not too long in all. */
  ghost predicate Acceptable(duration: Option<int>, preview: PreviewResponse, context: Context) {
    && preview.blocks != []
    && preview.version == context.version
    && preview.window == context.window
    && (forall b | b in preview.blocks :: GoodBlock(b, context.window))
    && Pairwise(preview.blocks, Disjoint)
    && (duration.Some? ==> SumBy(preview.blocks, BlockMinutes) <= duration.value)
  }

  predicate GoodShape(b: PreviewBlock, window: Span) {
    b.start < b.end && window.start <= b.start && b.end <= window.end && (b.end - b.start) % MINUTE == 0
  }

  ghost predicate GoodList(blocks: seq<PreviewBlock>, window: Span) {
    (forall b | b in blocks :: GoodShape(b, window)) && Pairwise(blocks, Disjoint)
  }

  lemma {:induction false} CheckedBlocks(blocks: seq<PreviewBlock>, window: Span)
    requires SortedBy(blocks, PreviewBlockLe)
    ensures CheckBlocks(blocks, window).Ok? <==> GoodList(blocks, window)
    ensures CheckBlocks(blocks, window).Ok? ==>
            CheckBlocks(blocks, window).value == seq(|blocks|, i requires 0 <= i < |blocks| => Normalize(blocks[i]))
  {
    if blocks != [] {
      hide GoodList, BlockError;
      var init, last := blocks[..|blocks| - 1], blocks[|blocks| - 1];
      CheckedBlocks(init, window);
      assert blocks == init + [last];
      GoodListNext(init, last, window);
    }
  }

  lemma GoodListNext(init: seq<PreviewBlock>, last: PreviewBlock, window: Span)
    requires SortedBy(init + [last], PreviewBlockLe)
    ensures GoodList(init + [last], window) <==> GoodList(init, window) && BlockError(last, LastEnd(init), window).None?
  {
    hide GoodShape, BlockError, Disjoint, SortedBy;
    var blocks := init + [last];
    PairwiseNext(init, last);
    BlockErrorIff(last, LastEnd(init), window);
    assert blocks[|init|] == last;
    assert forall b :: b in blocks <==> b in init || b == last;
    if init != [] && GoodShape(last, window) && GoodList(init, window) {
      NeighbourSuffices(init, last, window);
    }
  }

  lemma BlockErrorIff(b: PreviewBlock, previousEnd: Option<int>, window: Span)
    ensures BlockError(b, previousEnd, window).None? <==>
            GoodShape(b, window) && (previousEnd.Some? ==> previousEnd.value <= b.start)
  {
  }

  lemma PairwiseNext(init: seq<PreviewBlock>, last: PreviewBlock)
    ensures Pairwise(init + [last], Disjoint) <==>
            Pairwise(init, Disjoint) && forall i :: 0 <= i < |init| ==> Disjoint(init[i], last)
  {
    var all := init + [last];
    if Pairwise(all, Disjoint) {
      forall i | 0 <= i < |init| ensures Disjoint(init[i], last) {
        assert Disjoint(all[i], all[|init|]);
      }
      forall i, j | 0 <= i < j < |init| ensures Disjoint(init[i], init[j]) {
        assert Disjoint(all[i], all[j]);
      }
    }
  }

  /** Among sorted positive blocks, the new one is disjoint from all iff it starts after its neighbour ends. */
  lemma NeighbourSuffices(init: seq<PreviewBlock>, last: PreviewBlock, window: Span)
    requires init != [] && SortedBy(init + [last], PreviewBlockLe)
    requires GoodShape(last, window)
    requires forall b | b in init :: GoodShape(b, window)
    requires Pairwise(init, Disjoint)
    ensures init[|init| - 1].end <= last.start <==> forall i :: 0 <= i < |init| ==> Disjoint(init[i], last)
  {
    var n := |init| - 1;
    var all := init + [last];
    assert PreviewBlockLe(all[n], all[n + 1]);
    forall i | 0 <= i < n ensures init[i].end <= init[n].end {
      assert PreviewBlockLe(all[i], all[n]);
      assert Disjoint(init[i], init[n]);
      assert init[i] in init && init[n] in init;
    }
    if forall i :: 0 <= i < |init| ==> Disjoint(init[i], last) {
      assert Disjoint(init[n], last);
    }
  }

  function NormalizeAll(blocks: seq<PreviewBlock>): seq<Normalized> {
    seq(|blocks|, i requires 0 <= i < |blocks| => Normalize(blocks[i]))
  }

  lemma {:induction false} NormalizedMinutes(blocks: seq<PreviewBlock>)
    ensures SumBy(NormalizeAll(blocks), StoredMinutes) == SumBy(blocks, BlockMinutes)
  {
    if blocks != [] {
      var init := blocks[..|blocks| - 1];
      NormalizedMinutes(init);
      assert NormalizeAll(blocks)[..|blocks| - 1] == NormalizeAll(init);
    }
  }

  lemma SortedPreview(blocks: seq<PreviewBlock>, window: Span)
    ensures SortedBy(Sort(blocks, PreviewBlockLe), PreviewBlockLe)
    ensures GoodList(Sort(blocks, PreviewBlockLe), window) <==> GoodList(blocks, window)
  {
    var sorted := Sort(blocks, PreviewBlockLe);
    SortIsSorted(blocks, PreviewBlockLe);
    SameElements(sorted, blocks);
    if Pairwise(blocks, Disjoint) {
      PermutationPairwise(blocks, sorted, Disjoint);
    }
    if Pairwise(sorted, Disjoint) {
      PermutationPairwise(sorted, blocks, Disjoint);
    }
  }

  /**
    Validation is exact although it compares neighbours only: it accepts a preview iff every
    block is good, any two are disjoint, and the total does not exceed the duration; what it
    stores is the sorted blocks.
   */
  lemma ValidatedIff(duration: Option<int>, preview: PreviewResponse, context: Context)
    ensures Validated(duration, preview, context).Ok? <==> Acceptable(duration, preview, context)
    ensures Validated(duration, preview, context).Ok? ==>
            Validated(duration, preview, context).value == NormalizeAll(Sort(preview.blocks, PreviewBlockLe))
  {
    hide GoodList, CheckBlocks, Pairwise, SumBy, SortedBy, Acceptable, Sort, PreviewBlockLe;
    var sorted := Sort(preview.blocks, PreviewBlockLe);
    SortedPreview(preview.blocks, context.window);
    CheckedBlocks(sorted, context.window);
    NormalizedMinutes(sorted);
    SumBySort(preview.blocks, PreviewBlockLe, BlockMinutes);
    AcceptableByList(duration, preview, context);
  }

  /** Each block is stored with its own times, in order of time, one beside another, in positive whole minutes. */
  ghost predicate Stores(stored: seq<Normalized>, blocks: seq<PreviewBlock>) {
    && |stored| == |blocks|
    && (forall b | b in blocks :: exists n | n in stored :: n.start == b.start && n.end == b.end)
    && (forall n | n in stored :: n.minutes > 0 && n.start + n.minutes * MINUTE == n.end)
    && (forall i, j :: 0 <= i < j < |stored| ==> stored[i].end <= stored[j].start)
  }

  lemma SortedStores(sorted: seq<PreviewBlock>, window: Span)
    requires SortedBy(sorted, PreviewBlockLe) && GoodList(sorted, window)
    ensures Stores(NormalizeAll(sorted), sorted)
  {
    hide GoodList, GoodShape, SortedBy;
    var stored := NormalizeAll(sorted);
    forall i | 0 <= i < |stored| ensures stored[i].minutes > 0
      && stored[i].start + stored[i].minutes * MINUTE == stored[i].end && stored[i] in stored
    {
      GoodAt(sorted, window, i);
    }
    forall i, j | 0 <= i < j < |stored| ensures stored[i].end <= stored[j].start {
      GoodAt(sorted, window, i);
      GoodAt(sorted, window, j);
      GoodPair(sorted, window, i, j);
    }
    forall b | b in sorted ensures exists n | n in stored :: n.start == b.start && n.end == b.end {
      var i :| 0 <= i < |sorted| && sorted[i] == b;
      assert stored[i] in stored;
    }
  }

  lemma GoodAt(blocks: seq<PreviewBlock>, window: Span, i: nat)
    requires GoodList(blocks, window) && i < |blocks|
    ensures blocks[i].start < blocks[i].end && (blocks[i].end - blocks[i].start) % MINUTE == 0
  {
    assert blocks[i] in blocks;
  }

  lemma GoodPair(blocks: seq<PreviewBlock>, window: Span, i: nat, j: nat)
    requires SortedBy(blocks, PreviewBlockLe) && GoodList(blocks, window) && i < j < |blocks|
    ensures PreviewBlockLe(blocks[i], blocks[j]) && Disjoint(blocks[i], blocks[j])
  {
  }

  lemma ValidatedStores(duration: Option<int>, preview: PreviewResponse, context: Context)
    requires Validated(duration, preview, context).Ok?
    ensures Stores(Validated(duration, preview, context).value, preview.blocks)
  {
    hide Validated, Sort, GoodList, NormalizeAll, SumBy, Pairwise, Acceptable;
    var sorted := Sort(preview.blocks, PreviewBlockLe);
    ValidatedIff(duration, preview, context);
    AcceptableByList(duration, preview, context);
    SortedPreview(preview.blocks, context.window);
    SameElements(sorted, preview.blocks);
    SortedStores(sorted, context.window);
  }

  lemma AcceptableByList(duration: Option<int>, preview: PreviewResponse, context: Context)
    ensures Acceptable(duration, preview, context) <==>
            && preview.blocks != []
            && preview.version == context.version
            && preview.window == context.window
            && (forall b | b in preview.blocks :: b.aware)
            && GoodList(preview.blocks, context.window)
            && (duration.Some? ==> SumBy(preview.blocks, BlockMinutes) <= duration.value)
  {
    hide Pairwise, SumBy;
    if forall b | b in preview.blocks :: GoodBlock(b, context.window) {
      assert forall b | b in preview.blocks :: GoodShape(b, context.window);
    }
    if (forall b | b in preview.blocks :: b.aware) && (forall b | b in preview.blocks :: GoodShape(b, context.window)) {
      assert forall b | b in preview.blocks :: GoodBlock(b, context.window);
    }
  }

  // ----- generating a preview -----

  datatype SchedulePreview = SchedulePreview(
    planning: TimeInterval,
    free: seq<TimeInterval>,
    result: Scheduler.SchedulerResult)

  datatype PreviewFailure =
    | FreeTimeFailed(error: Availability.Error)
    | SchedulingFailed(schedulingError: Scheduler.Error)

  /** Working hours and zone with what the scheduler reads. */
  datatype UserPreferences = UserPreferences(
    hours: Availability.WorkingHours,
    zone: Zone,
    scheduling: Scheduler.Preferences)

  /** The free time is the free time, and the result is the schedule in it without accepted blocks. */
  ghost predicate IsPreview(
    p: SchedulePreview, planning: TimeInterval, busy: seq<TimeInterval>,
    tasks: seq<Scheduler.Task>, prefs: UserPreferences)
  {
    && p.planning == planning
    && Availability.AllWeekdays(prefs.hours)
    && Availability.IsFreeTime(p.free, planning, prefs.hours, busy, prefs.zone)
    && Scheduler.Accepts(prefs.scheduling, [])
    && p.result == Scheduler.Scheduled(tasks, p.free, prefs.scheduling, prefs.zone, [])
  }

  /** The working hours name every weekday, and each of their windows in the planning window can be resolved. */
  ghost predicate HasFreeTime(planning: TimeInterval, prefs: UserPreferences) {
    && Availability.AllWeekdays(prefs.hours)
    && Availability.AllResolvable(prefs.zone, prefs.hours, planning)
  }

  // generate_schedule_preview
  method GenerateSchedulePreview(
    planning: TimeInterval, busy: seq<TimeInterval>, tasks: seq<Scheduler.Task>, prefs: UserPreferences)
    returns (r: Result<SchedulePreview, PreviewFailure>)
    ensures r.Ok? ==> IsPreview(r.value, planning, busy, tasks, prefs)
    ensures r.Err? && r.error.FreeTimeFailed? <==> !HasFreeTime(planning, prefs)
    ensures r.Err? && r.error.SchedulingFailed? <==>
            HasFreeTime(planning, prefs) && !Scheduler.Accepts(prefs.scheduling, [])
  {
    hide Availability.IsFreeTime, Availability.AllResolvable, Scheduler.Scheduled;
    var free := Availability.CalculateFreeIntervals(planning, prefs.hours, busy, prefs.zone);
    if free.Err? {
      return Err(FreeTimeFailed(free.error));
    }
    var result := SchedulerLoop.ScheduleTasksLoop(tasks, free.value, prefs.scheduling, prefs.zone, []);
    if result.Err? {
      return Err(SchedulingFailed(result.error));
    }
    return Ok(SchedulePreview(planning, free.value, result.value));
  }

  function RowSpans(rows: seq<Revalidation.StoredSession>): seq<TimeInterval> {
    seq(|rows|, i requires 0 <= i < |rows| => rows[i].span)
  }

  function ReservedRows(rows: seq<Revalidation.StoredSession>, user: string, planning: TimeInterval)
    : seq<Revalidation.StoredSession>
  {
    Revalidation.ListReserved(rows, user, planning, None).value
  }

  // _preview_with_reservations
  method PreviewWithReservations(
    planning: TimeInterval, busy: seq<TimeInterval>, rows: seq<Revalidation.StoredSession>, user: string,
    tasks: seq<Scheduler.Task>, prefs: UserPreferences)
    returns (r: Result<SchedulePreview, PreviewFailure>)
    ensures r.Ok? ==> IsPreview(r.value, planning, busy + RowSpans(ReservedRows(rows, user, planning)), tasks, prefs)
    ensures r.Ok? <==> HasFreeTime(planning, prefs) && Scheduler.Accepts(prefs.scheduling, [])
  {
    hide IsPreview, HasFreeTime;
    r := GenerateSchedulePreview(planning, busy + RowSpans(ReservedRows(rows, user, planning)), tasks, prefs);
  }
}
