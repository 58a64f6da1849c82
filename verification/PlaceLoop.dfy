/**
  What the whole `while remaining` loop of `_place_task` keeps: by induction over its turns.
 */
module PlaceLoop {
  import opened Prelude
  import opened Sorting
  import opened Intervals
  import opened Zones
  import opened Scheduler
  import opened Placement

  lemma SpansConcat(a: seq<Block>, b: seq<Block>)
    ensures Spans(a + b) == Spans(a) + Spans(b)
  {
  }

  lemma SpansMembers(blocks: seq<Block>)
    ensures forall b | b in blocks :: b.span in Spans(blocks)
    ensures forall s | s in Spans(blocks) :: exists b | b in blocks :: b.span == s
  {
    forall b | b in blocks ensures b.span in Spans(blocks) {
      var i :| 0 <= i < |blocks| && blocks[i] == b;
      assert Spans(blocks)[i] == b.span;
    }
    forall s | s in Spans(blocks) ensures exists b | b in blocks :: b.span == s {
      var i :| 0 <= i < |blocks| && Spans(blocks)[i] == s;
      assert blocks[i] in blocks;
    }
  }

  /** Counting up a block adds one to its own task and day only. */
  lemma CountBlockAdds(counter: SessionCounter, b: Block, zone: Zone, id: string, day: int)
    ensures Count(CountBlock(counter, b.taskId, b.span, zone), id, day) ==
            Count(counter, id, day) + OnDay(id, day, zone)(b)
  {
  }

  /** The blocks carry the task's id and account for the minutes that are no longer remaining. */
  lemma {:induction false} PlaceShape(
    task: Task, remaining: int, managed: seq<TimeInterval>, counter: SessionCounter, setting: Setting)
    requires setting.Valid() && remaining >= 0
    ensures var p := Place(task, remaining, managed, counter, setting);
      && p.managed == managed + Spans(p.blocks)
      && (forall b | b in p.blocks :: b.taskId == task.id)
      && 0 <= p.remaining
      && Minutes(p.blocks, task.id) + p.remaining == remaining
      && (!task.splittable ==> |p.blocks| <= 1)
    decreases remaining
  {
    hide NextBlock, CountBlock;
    var p := Place(task, remaining, managed, counter, setting);
    if remaining == 0 || NextBlock(task, remaining, managed, counter, setting).None? {
      assert Spans([]) == [];
      assert p.blocks == [];
    } else {
      var b := NextBlock(task, remaining, managed, counter, setting).value;
      var block := Block(task.id, b);
      SumOne(block, MinutesFor(task.id));
      assert Spans([block]) == [b];
      if task.splittable {
        var left, managed' := remaining - b.DurationMinutes(), managed + [b];
        var counter' := CountBlock(counter, task.id, b, setting.zone);
        PlaceShape(task, left, managed', counter', setting);
        var rest := Place(task, left, managed', counter', setting);
        assert p == rest.(blocks := [block] + rest.blocks);
        hide Place, SumBy;
        SpansConcat([block], rest.blocks);
        SumByConcat([block], rest.blocks, MinutesFor(task.id));
        assert managed' + Spans(rest.blocks) == managed + Spans([block] + rest.blocks);
      } else {
        assert p.blocks == [block];
      }
    }
  }

  /** The counter grows by the sessions booked. */
  lemma {:induction false} PlaceCounts(
    task: Task, remaining: int, managed: seq<TimeInterval>, counter: SessionCounter, setting: Setting,
    id: string, day: int)
    requires setting.Valid() && remaining >= 0
    ensures var p := Place(task, remaining, managed, counter, setting);
      Count(p.counter, id, day) == Count(counter, id, day) + SessionsOn(p.blocks, id, day, setting.zone)
    decreases remaining
  {
    hide NextBlock, CountBlock, Count, OnDay;
    if remaining != 0 && NextBlock(task, remaining, managed, counter, setting).Some? {
      var b := NextBlock(task, remaining, managed, counter, setting).value;
      var block := Block(task.id, b);
      CountBlockAdds(counter, block, setting.zone, id, day);
      SumOne(block, OnDay(id, day, setting.zone));
      if task.splittable {
        var left, managed' := remaining - b.DurationMinutes(), managed + [b];
        var counter' := CountBlock(counter, task.id, b, setting.zone);
        PlaceCounts(task, left, managed', counter', setting, id, day);
        var rest := Place(task, left, managed', counter', setting);
        SumByConcat([block], rest.blocks, OnDay(id, day, setting.zone));
      }
    }
  }

  /** Sound, and a whole number of minutes long. */
  ghost predicate SoundBlock(task: Task, b: Block, setting: Setting) {
    && b.taskId == task.id
    && SoundPlace(task, b.span, setting)
    && b.span.end == b.span.start + b.span.DurationMinutes() * MINUTE
  }

  /** Every later interval keeps the break from every earlier one, from position n on. */
  ghost predicate ApartFrom(spans: seq<TimeInterval>, n: nat, gap: int) {
    forall i, j :: 0 <= i < j < |spans| && n <= j ==> Apart(spans[i], spans[j], gap)
  }

  /** Every block booked is sound and keeps the break from all that was booked before. */
  lemma {:induction false} PlaceSeparates(
    task: Task, remaining: int, managed: seq<TimeInterval>, counter: SessionCounter, setting: Setting)
    requires setting.Valid() && remaining >= 0 && TaskValid(task)
    ensures var p := Place(task, remaining, managed, counter, setting);
      && (forall b | b in p.blocks :: SoundBlock(task, b, setting))
      && ApartFrom(p.managed, |managed|, setting.Break())
      && managed <= p.managed
    decreases remaining
  {
    hide NextBlock, CountBlock, SoundPlace, LegalMinutes;
    if remaining != 0 && NextBlock(task, remaining, managed, counter, setting).Some? {
      NextBlockIsLegal(task, remaining, managed, counter, setting);
      var b := NextBlock(task, remaining, managed, counter, setting).value;
      assert forall i | 0 <= i < |managed| :: managed[i] in managed;
      if task.splittable {
        PlaceSeparates(task, remaining - b.DurationMinutes(), managed + [b],
                       CountBlock(counter, task.id, b, setting.zone), setting);
        var p := Place(task, remaining, managed, counter, setting);
        assert p.managed[..|managed| + 1] == managed + [b];
        assert forall i | 0 <= i <= |managed| :: p.managed[i] == (managed + [b])[i];
      }
    }
  }

  /** A remainder is left only when nothing more could be booked. */
  lemma {:induction false} PlaceExhausts(
    task: Task, remaining: int, managed: seq<TimeInterval>, counter: SessionCounter, setting: Setting)
    requires setting.Valid() && remaining >= 0 && TaskValid(task)
    ensures var p := Place(task, remaining, managed, counter, setting);
      p.remaining > 0 ==> NextBlock(task, p.remaining, p.managed, p.counter, setting).None?
    decreases remaining
  {
    hide NextBlock, CountBlock, SoundPlace;
    if remaining != 0 && NextBlock(task, remaining, managed, counter, setting).Some? {
      NextBlockIsLegal(task, remaining, managed, counter, setting);
      var b := NextBlock(task, remaining, managed, counter, setting).value;
      if task.splittable {
        PlaceExhausts(task, remaining - b.DurationMinutes(), managed + [b],
                      CountBlock(counter, task.id, b, setting.zone), setting);
      }
    }
  }

  /** A splittable remainder that starts long enough for a session stays so, or reaches zero. */
  lemma {:induction false} PlaceLeavesSession(
    task: Task, remaining: int, managed: seq<TimeInterval>, counter: SessionCounter, setting: Setting)
    requires setting.Valid() && TaskValid(task) && task.splittable
    requires LongEnough(task, remaining, setting.prefs) || remaining == 0
    ensures var p := Place(task, remaining, managed, counter, setting);
      p.remaining == 0 || LongEnough(task, p.remaining, setting.prefs)
    decreases remaining
  {
    hide NextBlock, CountBlock, SoundPlace;
    if remaining != 0 && NextBlock(task, remaining, managed, counter, setting).Some? {
      NextBlockIsLegal(task, remaining, managed, counter, setting);
      var b := NextBlock(task, remaining, managed, counter, setting).value;
      PlaceLeavesSession(task, remaining - b.DurationMinutes(), managed + [b],
                         CountBlock(counter, task.id, b, setting.zone), setting);
    }
  }

  /** No day is filled beyond the cap, or beyond what it already held. */
  lemma {:induction false} PlaceRespectsCap(
    task: Task, remaining: int, managed: seq<TimeInterval>, counter: SessionCounter, setting: Setting, day: int)
    requires setting.Valid() && remaining >= 0 && TaskValid(task) && KeepsDay(setting.zone)
    ensures Count(Place(task, remaining, managed, counter, setting).counter, task.id, day) <=
            Max(task.maxPerDay, Count(counter, task.id, day))
    decreases remaining
  {
    hide NextBlock, CountBlock, SoundPlace, KeepsDay, LegalMinutes, Count;
    if remaining != 0 && NextBlock(task, remaining, managed, counter, setting).Some? {
      NextBlockIsLegal(task, remaining, managed, counter, setting);
      var b := NextBlock(task, remaining, managed, counter, setting).value;
      CountBlockAdds(counter, Block(task.id, b), setting.zone, task.id, day);
      if task.splittable {
        PlaceRespectsCap(task, remaining - b.DurationMinutes(), managed + [b],
                         CountBlock(counter, task.id, b, setting.zone), setting, day);
      }
    }
  }
}
