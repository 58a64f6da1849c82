/**
  `_subtract_intervals` of the scheduler: its pieces lie in the sources, keep clear of
  every reservation, and lose no interval that does both; so on canonical sources it
  computes the same list as the availability calculator's `_subtract_busy`.
 */
module Subtraction {
  import opened Sorting
  import opened Intervals
  import opened Scheduler
  import Availability

  ghost predicate InsideSome(p: TimeInterval, sources: seq<TimeInterval>) {
    exists s | s in sources :: Within(p, s)
  }

  ghost predicate ClearOf(p: TimeInterval, rs: seq<TimeInterval>) {
    forall r | r in rs :: !Overlaps(p, r)
  }

  lemma {:induction false} CutAllSound(sources: seq<TimeInterval>, r: TimeInterval)
    ensures forall p | p in CutAll(sources, r) :: !Overlaps(p, r) && InsideSome(p, sources)
  {
    if sources != [] {
      var init, last := sources[..|sources| - 1], sources[|sources| - 1];
      CutAllSound(init, r);
      forall p | p in CutAll(sources, r) ensures !Overlaps(p, r) && InsideSome(p, sources) {
        if p in Cut(last, r) {
          assert Within(p, last) && last in sources;
        } else {
          assert InsideSome(p, init);
          var s :| s in init && Within(p, s);
          assert s in sources;
        }
      }
    }
  }

  lemma CutComplete(source: TimeInterval, r: TimeInterval, x: TimeInterval) returns (p: TimeInterval)
    requires Within(x, source) && !Overlaps(x, r)
    ensures p in Cut(source, r) && Within(x, p)
  {
    if r.end <= source.start || r.start >= source.end {
      p := source;
    } else if x.end <= r.start {
      p := Span(source.start, r.start);
      assert Cut(source, r)[0] == p;
    } else {
      p := Span(r.end, source.end);
      assert Cut(source, r)[|Cut(source, r)| - 1] == p;
    }
  }

  lemma {:induction false} CutAllComplete(sources: seq<TimeInterval>, r: TimeInterval, x: TimeInterval)
    requires InsideSome(x, sources) && !Overlaps(x, r)
    ensures InsideSome(x, CutAll(sources, r))
  {
    if sources != [] {
      var init, last := sources[..|sources| - 1], sources[|sources| - 1];
      if Within(x, last) {
        var p := CutComplete(last, r, x);
        assert p in CutAll(sources, r);
      } else {
        var s :| s in sources && Within(x, s);
        assert s in init;
        CutAllComplete(init, r, x);
        var p :| p in CutAll(init, r) && Within(x, p);
        assert p in CutAll(sources, r);
      }
    }
  }

  lemma {:induction false} InOrderSound(sources: seq<TimeInterval>, rs: seq<TimeInterval>)
    ensures forall p | p in SubtractInOrder(sources, rs) :: InsideSome(p, sources) && ClearOf(p, rs)
  {
    if rs == [] {
      assert forall p | p in sources :: Within(p, p);
    } else {
      var init, last := rs[..|rs| - 1], rs[|rs| - 1];
      InOrderSound(sources, init);
      var before := SubtractInOrder(sources, init);
      CutAllSound(before, last);
      forall p | p in CutAll(before, last) ensures InsideSome(p, sources) && ClearOf(p, rs) {
        var q :| q in before && Within(p, q);
        assert InsideSome(q, sources) && ClearOf(q, init);
        var s :| s in sources && Within(q, s);
        assert Within(p, s);
        forall r | r in rs ensures !Overlaps(p, r) {
          if r != last {
            assert r in init;
          }
        }
      }
    }
  }

  lemma {:induction false} InOrderComplete(sources: seq<TimeInterval>, rs: seq<TimeInterval>, x: TimeInterval)
    requires InsideSome(x, sources) && ClearOf(x, rs)
    ensures InsideSome(x, SubtractInOrder(sources, rs))
  {
    if rs != [] {
      var init, last := rs[..|rs| - 1], rs[|rs| - 1];
      assert forall r | r in init :: r in rs;
      InOrderComplete(sources, init, x);
      CutAllComplete(SubtractInOrder(sources, init), last, x);
    }
  }

  /** Every piece is inside a source and clear of the reservations. */
  lemma SubtractSound(sources: seq<TimeInterval>, rs: seq<TimeInterval>)
    ensures forall p | p in Subtract(sources, rs) :: InsideSome(p, sources) && ClearOf(p, rs)
  {
    InOrderSound(sources, Sort(rs, SpanLe));
    SameElements(Sort(rs, SpanLe), rs);
  }

  /** Every interval inside a source and clear of the reservations is inside one piece. */
  lemma SubtractComplete(sources: seq<TimeInterval>, rs: seq<TimeInterval>, x: TimeInterval)
    requires InsideSome(x, sources) && ClearOf(x, rs)
    ensures InsideSome(x, Subtract(sources, rs))
  {
    SameElements(Sort(rs, SpanLe), rs);
    InOrderComplete(sources, Sort(rs, SpanLe), x);
  }

  lemma PiecesEnd(sources: seq<TimeInterval>, r: TimeInterval, bound: int)
    requires forall i :: 0 <= i < |sources| ==> sources[i].end < bound
    ensures forall i :: 0 <= i < |CutAll(sources, r)| ==> CutAll(sources, r)[i].end < bound
  {
    CutAllSound(sources, r);
    var a := CutAll(sources, r);
    forall i | 0 <= i < |a| ensures a[i].end < bound {
      assert a[i] in a;
      var s :| s in sources && Within(a[i], s);
    }
  }

  lemma {:induction false} CutAllCanonical(sources: seq<TimeInterval>, r: TimeInterval)
    requires Canonical(sources)
    ensures Canonical(CutAll(sources, r))
  {
    if sources != [] {
      var init, last := sources[..|sources| - 1], sources[|sources| - 1];
      CutAllCanonical(init, r);
      PiecesEnd(init, r, last.start);
      CanonicalConcat(CutAll(init, r), Cut(last, r), last.start);
    }
  }

  lemma CanonicalConcat(a: seq<TimeInterval>, b: seq<TimeInterval>, bound: int)
    requires Canonical(a) && Canonical(b)
    requires forall i :: 0 <= i < |a| ==> a[i].end < bound
    requires forall i :: 0 <= i < |b| ==> bound <= b[i].start
    ensures Canonical(a + b)
  {
  }

  lemma {:induction false} InOrderCanonical(sources: seq<TimeInterval>, rs: seq<TimeInterval>)
    requires Canonical(sources)
    ensures Canonical(SubtractInOrder(sources, rs))
  {
    if rs != [] {
      InOrderCanonical(sources, rs[..|rs| - 1]);
      CutAllCanonical(SubtractInOrder(sources, rs[..|rs| - 1]), rs[|rs| - 1]);
    }
  }

  /** In terms of instants: exactly the sources without the reservations. */
  lemma SubtractExact(sources: seq<TimeInterval>, rs: seq<TimeInterval>, t: int)
    ensures Covers(Subtract(sources, rs), t) <==> Covers(sources, t) && !Covers(rs, t)
  {
    hide Subtract;
    var pieces := Subtract(sources, rs);
    SubtractSound(sources, rs);
    if Covers(pieces, t) {
      var i :| 0 <= i < |pieces| && Holds(pieces[i], t);
      assert pieces[i] in pieces;
      var s :| s in sources && Within(pieces[i], s);
      var k :| 0 <= k < |sources| && sources[k] == s;
      assert Holds(sources[k], t);
      forall j | 0 <= j < |rs| ensures !Holds(rs[j], t) {
        assert rs[j] in rs;
      }
    }
    if Covers(sources, t) && !Covers(rs, t) {
      var x: TimeInterval := Span(t, t + 1);
      var k :| 0 <= k < |sources| && Holds(sources[k], t);
      assert Within(x, sources[k]) && sources[k] in sources;
      forall r | r in rs ensures !Overlaps(x, r) {
        var j :| 0 <= j < |rs| && rs[j] == r;
        assert !Holds(rs[j], t);
      }
      SubtractComplete(sources, rs, x);
      var p :| p in pieces && Within(x, p);
      var i :| 0 <= i < |pieces| && pieces[i] == p;
      assert Holds(pieces[i], t);
    }
  }

  /** On the same inputs the scheduler's subtraction and the calculator's give the same list. */
  lemma SubtractionsAgree(free: seq<TimeInterval>, working: seq<TimeInterval>, busy: seq<TimeInterval>)
    requires Canonical(working)
    requires Availability.IsDifference(free, working, busy)
    ensures Subtract(working, busy) == free
  {
    InOrderCanonical(working, Sort(busy, SpanLe));
    forall t ensures Covers(Subtract(working, busy), t) <==> Covers(free, t) {
      SubtractExact(working, busy, t);
    }
    CanonicalUnique(Subtract(working, busy), free);
  }
}
