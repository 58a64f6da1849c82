/**
  app/calendar_integration/mapper.py: a provider's busy intervals, sorted and merged.
 */
module CalendarMapper {
  import opened Prelude
  import opened Sorting
  import opened Intervals
  import Availability

  /**
    A busy interval as the provider reports it: the end may equal the start, and the code also
    refuses an end before it.
   */
  datatype ProviderBusy = ProviderBusy(start: int, end: int, calendarId: string)

  predicate Refused(items: seq<ProviderBusy>) {
    exists i :: 0 <= i < |items| && items[i].start > items[i].end
  }

  /** The instants the provider calls busy. */
  ghost predicate ProviderCovers(items: seq<ProviderBusy>, t: int) {
    exists i :: 0 <= i < |items| && items[i].start <= t < items[i].end
  }

  /** The positive-length intervals so far, which an item extends unless its length is zero. */
  ghost predicate Collected(intervals: seq<TimeInterval>, items: seq<ProviderBusy>) {
    forall t :: Covers(intervals, t) <==> ProviderCovers(items, t)
  }

  lemma CollectStep(intervals: seq<TimeInterval>, items: seq<ProviderBusy>, item: ProviderBusy)
    requires Collected(intervals, items) && item.start <= item.end
    ensures Collected(if item.start < item.end then intervals + [Span(item.start, item.end)] else intervals,
                      items + [item])
  {
    var intervals' := if item.start < item.end then intervals + [Span(item.start, item.end)] else intervals;
    forall t ensures Covers(intervals', t) <==> ProviderCovers(items + [item], t) {
      if item.start < item.end {
        Availability.CoversAppend(intervals, Span(item.start, item.end), t);
      }
      if ProviderCovers(items, t) {
        var j :| 0 <= j < |items| && items[j].start <= t < items[j].end;
        assert (items + [item])[j] == items[j];
      }
      assert (items + [item])[|items|] == item;
    }
  }

  /** The first loop: checked, without the empty intervals. */
  method PositiveIntervals(items: seq<ProviderBusy>) returns (r: Result<seq<TimeInterval>, string>)
    ensures r.Err? <==> Refused(items)
    ensures r.Ok? ==> Collected(r.value, items)
  {
    var intervals: seq<TimeInterval> := [];
    for i := 0 to |items|
      invariant !Refused(items[..i])
      invariant Collected(intervals, items[..i])
    {
      var item := items[i];
      if item.start > item.end {
        return Err(item.calendarId);
      }
      CollectStep(intervals, items[..i], item);
      assert items[..i + 1] == items[..i] + [item];
      if item.start == item.end {
        continue;
      }
      intervals := intervals + [Span(item.start, item.end)];
    }
    assert items[..|items|] == items;
    return Ok(intervals);
  }

  /** The second loop: touching and overlapping neighbours become one. */
  method MergeOrdered(ordered: seq<TimeInterval>) returns (merged: seq<TimeInterval>)
    requires SortedBy(ordered, SpanLe)
    ensures IsUnion(merged, ordered)
  {
    merged := [];
    for i := 0 to |ordered|
      invariant IsUnion(merged, ordered[..i])
      invariant merged != [] ==> i > 0 && merged[|merged| - 1].start <= ordered[i - 1].start
    {
      var current := ordered[i];
      assert i > 0 ==> SpanLe(ordered[i - 1], ordered[i]);
      Availability.MergeStep(merged, ordered[..i], current);
      assert ordered[..i + 1] == ordered[..i] + [current];
      if merged == [] {
        merged := [current];
        continue;
      }
      var previous := merged[|merged| - 1];
      if current.start <= previous.end {
        merged := merged[|merged| - 1 := Span(previous.start, Max(previous.end, current.end))];
      } else {
        merged := merged + [current];
      }
    }
    assert ordered[..|ordered|] == ordered;
  }

  method NormalizeCalendarBusyIntervals(items: seq<ProviderBusy>)
    returns (r: Result<seq<TimeInterval>, string>)
    ensures r.Err? <==> exists item | item in items :: item.end < item.start
    ensures r.Ok? ==> Canonical(r.value) && Collected(r.value, items)
  {
    var intervals := PositiveIntervals(items);
    if intervals.Err? {
      return intervals;
    }
    SpanOrder();
    SortIsSorted(intervals.value, SpanLe);
    CoversPermutation(Sort(intervals.value, SpanLe), intervals.value);
    var merged := MergeOrdered(Sort(intervals.value, SpanLe));
    return Ok(merged);
  }

  /** The calculator's merge and this one give the same list. */
  lemma MergesAgree(items: seq<ProviderBusy>, intervals: seq<TimeInterval>, a: seq<TimeInterval>, b: seq<TimeInterval>)
    requires Collected(intervals, items)
    requires Canonical(a) && Collected(a, items)
    requires IsUnion(b, intervals)
    ensures a == b
  {
    CanonicalUnique(a, b);
  }
}
