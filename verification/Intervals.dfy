/**
  Half-open time intervals. Instants are whole microseconds, the resolution of the
  source's datetimes, on one absolute (UTC) axis.
 */
module Intervals {
  import opened Sorting

  const MINUTE: int := 60_000_000
  const HOUR: int := 60 * MINUTE
  const DAY: int := 24 * HOUR

  datatype Span = Span(start: int, end: int) {
    /** Whole minutes, rounded down. */
    function DurationMinutes(): int {
      (end - start) / MINUTE
    }
  }

  /** The source's TimeInterval: its constructor refuses a start that is not before the end. */
  type TimeInterval = s: Span | s.start < s.end witness Span(0, 1)

  predicate Overlaps(a: Span, b: Span) {
    a.start < b.end && b.start < a.end
  }

  /** At least `gap` between the two, in either order. */
  predicate Apart(a: Span, b: Span, gap: int) {
    a.end + gap <= b.start || b.end + gap <= a.start
  }

  predicate Within(inner: Span, outer: Span) {
    outer.start <= inner.start && inner.end <= outer.end
  }

  predicate Holds(s: Span, t: int) {
    s.start <= t < s.end
  }

  /** The instants a list of intervals stands for. */
  ghost predicate Covers(s: seq<TimeInterval>, t: int) {
    exists i :: 0 <= i < |s| && Holds(s[i], t)
  }

  ghost predicate SameInstants(a: seq<TimeInterval>, b: seq<TimeInterval>) {
    forall t :: Covers(a, t) <==> Covers(b, t)
  }

  /** In order, with a gap between any two. */
  ghost predicate Canonical(s: seq<TimeInterval>) {
    forall i, j :: 0 <= i < j < |s| ==> s[i].end < s[j].start
  }

  /** The canonical list of the instants of s. */
  ghost predicate IsUnion(r: seq<TimeInterval>, s: seq<TimeInterval>) {
    Canonical(r) && SameInstants(r, s)
  }

  /** The dataclass order: start, then end. */
  predicate SpanLe(a: TimeInterval, b: TimeInterval) {
    a.start < b.start || (a.start == b.start && a.end <= b.end)
  }

  lemma SpanOrder()
    ensures TotalPreorder(SpanLe)
    ensures forall s: seq<TimeInterval> :: Distinguishes(SpanLe, s)
  {
  }

  lemma CoversConcat(a: seq<TimeInterval>, b: seq<TimeInterval>, t: int)
    ensures Covers(a + b, t) <==> Covers(a, t) || Covers(b, t)
  {
    if Covers(a, t) {
      var i :| 0 <= i < |a| && Holds(a[i], t);
      assert (a + b)[i] == a[i];
    }
    if Covers(b, t) {
      var i :| 0 <= i < |b| && Holds(b[i], t);
      assert (a + b)[|a| + i] == b[i];
    }
  }

  lemma CoversPermutation(a: seq<TimeInterval>, b: seq<TimeInterval>)
    requires multiset(a) == multiset(b)
    ensures SameInstants(a, b)
  {
    SameElements(a, b);
    forall t ensures Covers(a, t) <==> Covers(b, t) {
      if Covers(a, t) {
        var i :| 0 <= i < |a| && Holds(a[i], t);
        assert a[i] in b;
      }
      if Covers(b, t) {
        var i :| 0 <= i < |b| && Holds(b[i], t);
        assert b[i] in a;
      }
    }
  }

  /** The first interval of a canonical list is the first maximal run of covered instants. */
  lemma CanonicalHead(a: seq<TimeInterval>, b: seq<TimeInterval>)
    requires Canonical(a) && Canonical(b) && SameInstants(a, b)
    requires a != []
    ensures b != [] && a[0].start >= b[0].start
    ensures a[0].start == b[0].start ==> a[0].end <= b[0].end
  {
    assert Holds(a[0], a[0].start);
    assert Covers(a, a[0].start);
    assert Covers(b, a[0].start);
    assert !Covers(b, b[0].end);
    assert !Covers(a, b[0].end);
    assert !Holds(a[0], b[0].end);
  }

  /** Two canonical lists of the same instants are the same list. */
  lemma {:induction false} CanonicalUnique(a: seq<TimeInterval>, b: seq<TimeInterval>)
    requires Canonical(a) && Canonical(b) && SameInstants(a, b)
    ensures a == b
  {
    if a != [] {
      CanonicalHead(a, b);
      CanonicalHead(b, a);
      assert a[0] == b[0];
      forall t ensures Covers(a[1..], t) <==> Covers(b[1..], t) {
        TailCovers(a, t);
        TailCovers(b, t);
      }
      CanonicalUnique(a[1..], b[1..]);
      assert a == [a[0]] + a[1..] && b == [b[0]] + b[1..];
    } else if b != [] {
      CanonicalHead(b, a);
    }
  }

  lemma TailCovers(a: seq<TimeInterval>, t: int)
    requires Canonical(a) && a != []
    ensures Covers(a[1..], t) <==> Covers(a, t) && a[0].end <= t
  {
    if Covers(a[1..], t) {
      var i :| 0 <= i < |a| - 1 && Holds(a[1..][i], t);
      assert Holds(a[i + 1], t);
    }
    if Covers(a, t) && a[0].end <= t {
      var i :| 0 <= i < |a| && Holds(a[i], t);
      assert a[1..][i - 1] == a[i];
    }
  }
}
