/**
  Python's `sorted`: a stable sort by a comparison, as a function, with the facts
  the proofs need: the result is an ordered permutation, it is the only one when
  the comparison tells the elements apart, and sums over it are unchanged.
 */
module Sorting {

  ghost predicate TotalPreorder<T(!new)>(le: (T, T) -> bool) {
    && (forall x, y :: le(x, y) || le(y, x))
    && (forall x, y, z :: le(x, y) && le(y, z) ==> le(x, z))
  }

  ghost predicate SortedBy<T(!new)>(s: seq<T>, le: (T, T) -> bool) {
    forall i, j :: 0 <= i < j < |s| ==> le(s[i], s[j])
  }

  /** Equivalent elements of the list are equal. */
  ghost predicate Distinguishes<T(!new)>(le: (T, T) -> bool, s: seq<T>) {
    forall x, y :: x in s && y in s && le(x, y) && le(y, x) ==> x == y
  }

  /** Places x behind every element it does not precede. */
  function Insert<T(!new)>(s: seq<T>, x: T, le: (T, T) -> bool): (r: seq<T>)
    ensures multiset(r) == multiset(s) + multiset{x}
  {
    if s == [] || le(s[|s| - 1], x) then
      s + [x]
    else
      assert s == s[..|s| - 1] + [s[|s| - 1]];
      Insert(s[..|s| - 1], x, le) + [s[|s| - 1]]
  }

  /** The stable sort. */
  function Sort<T(!new)>(s: seq<T>, le: (T, T) -> bool): (r: seq<T>)
    ensures multiset(r) == multiset(s)
    ensures |r| == |s|
  {
    if s == [] then
      []
    else
      assert s == s[..|s| - 1] + [s[|s| - 1]];
      var r := Insert(Sort(s[..|s| - 1], le), s[|s| - 1], le);
      assert |multiset(r)| == |multiset(s)|;
      r
  }

  lemma SameElements<T(!new)>(a: seq<T>, b: seq<T>)
    requires multiset(a) == multiset(b)
    ensures |a| == |b|
    ensures forall x :: x in a <==> x in b
  {
    assert |multiset(a)| == |multiset(b)|;
    forall x ensures x in a <==> x in b {
      assert x in a <==> x in multiset(a);
      assert x in b <==> x in multiset(b);
    }
  }

  lemma {:induction false} InsertKeepsSorted<T(!new)>(s: seq<T>, x: T, le: (T, T) -> bool)
    requires TotalPreorder(le) && SortedBy(s, le)
    ensures SortedBy(Insert(s, x, le), le)
  {
    if s != [] && !le(s[|s| - 1], x) {
      var last := s[|s| - 1];
      InsertKeepsSorted(s[..|s| - 1], x, le);
      var r := Insert(s[..|s| - 1], x, le);
      forall y | y in r ensures le(y, last) {
        assert y in multiset(r);
        assert y == x || y in s[..|s| - 1];
      }
    }
  }

  lemma {:induction false} SortIsSorted<T(!new)>(s: seq<T>, le: (T, T) -> bool)
    requires TotalPreorder(le)
    ensures SortedBy(Sort(s, le), le)
  {
    if s != [] {
      SortIsSorted(s[..|s| - 1], le);
      InsertKeepsSorted(Sort(s[..|s| - 1], le), s[|s| - 1], le);
    }
  }

  lemma SameLast<T(!new)>(a: seq<T>, b: seq<T>, le: (T, T) -> bool)
    requires SortedBy(a, le) && SortedBy(b, le)
    requires multiset(a) == multiset(b)
    requires Distinguishes(le, a) && a != []
    ensures |a| == |b| && a[|a| - 1] == b[|b| - 1]
  {
    SameElements(a, b);
    var x, y := a[|a| - 1], b[|b| - 1];
    if x != y {
      assert y in b && x in a;
      var i :| 0 <= i < |a| && a[i] == y;
      var j :| 0 <= j < |b| && b[j] == x;
    }
  }

  lemma DropLast<T(!new)>(s: seq<T>, le: (T, T) -> bool)
    requires SortedBy(s, le) && s != []
    ensures SortedBy(s[..|s| - 1], le)
    ensures multiset(s[..|s| - 1]) == multiset(s) - multiset{s[|s| - 1]}
    ensures Distinguishes(le, s) ==> Distinguishes(le, s[..|s| - 1])
  {
    assert s == s[..|s| - 1] + [s[|s| - 1]];
    assert forall y | y in s[..|s| - 1] :: y in s;
  }

  /** A list has at most one ordered permutation once the comparison tells its elements apart. */
  lemma {:induction false} SortedUnique<T(!new)>(a: seq<T>, b: seq<T>, le: (T, T) -> bool)
    requires SortedBy(a, le) && SortedBy(b, le)
    requires multiset(a) == multiset(b)
    requires Distinguishes(le, a)
    ensures a == b
  {
    if a == [] {
      assert |multiset(b)| == 0;
    } else {
      SameLast(a, b, le);
      DropLast(a, le);
      DropLast(b, le);
      SortedUnique(a[..|a| - 1], b[..|b| - 1], le);
      assert a == a[..|a| - 1] + [a[|a| - 1]];
    }
  }

  /** Sorting forgets the order its input came in. */
  lemma {:induction false} SortIgnoresOrder<T(!new)>(a: seq<T>, b: seq<T>, le: (T, T) -> bool)
    requires TotalPreorder(le) && Distinguishes(le, a)
    requires multiset(a) == multiset(b)
    ensures Sort(a, le) == Sort(b, le)
  {
    SortIsSorted(a, le);
    SortIsSorted(b, le);
    SameElements(Sort(a, le), a);
    SortedUnique(Sort(a, le), Sort(b, le), le);
  }

  function SumBy<T(!new)>(s: seq<T>, f: T -> int): int {
    if s == [] then 0 else SumBy(s[..|s| - 1], f) + f(s[|s| - 1])
  }

  lemma {:induction false} SumByConcat<T(!new)>(a: seq<T>, b: seq<T>, f: T -> int)
    ensures SumBy(a + b, f) == SumBy(a, f) + SumBy(b, f)
  {
    if b == [] {
      assert a + b == a;
    } else {
      assert (a + b)[..|a + b| - 1] == a + b[..|b| - 1];
      SumByConcat(a, b[..|b| - 1], f);
    }
  }

  lemma SumOne<T(!new)>(x: T, f: T -> int)
    ensures SumBy([x], f) == f(x)
  {
    assert [x][..0] == [];
  }

  lemma SumOfTwo<T(!new)>(x: T, y: T, f: T -> int)
    ensures SumBy([x, y], f) == f(x) + f(y)
  {
    assert [x, y][..1] == [x];
    SumOne(x, f);
  }

  lemma {:induction false} SumByInsert<T(!new)>(s: seq<T>, x: T, le: (T, T) -> bool, f: T -> int)
    ensures SumBy(Insert(s, x, le), f) == SumBy(s, f) + f(x)
  {
    if s == [] || le(s[|s| - 1], x) {
      SumByConcat(s, [x], f);
      assert SumBy([x], f) == SumBy([x][..0], f) + f(x);
    } else {
      SumByInsert(s[..|s| - 1], x, le, f);
      var r := Insert(s[..|s| - 1], x, le);
      assert (r + [s[|s| - 1]])[..|r|] == r;
    }
  }

  lemma {:induction false} SumBySort<T(!new)>(s: seq<T>, le: (T, T) -> bool, f: T -> int)
    ensures SumBy(Sort(s, le), f) == SumBy(s, f)
  {
    if s != [] {
      SumBySort(s[..|s| - 1], le, f);
      SumByInsert(Sort(s[..|s| - 1], le), s[|s| - 1], le, f);
    }
  }

  lemma {:induction false} SumByUpdate<T(!new)>(s: seq<T>, i: nat, x: T, f: T -> int)
    requires i < |s|
    ensures SumBy(s[i := x], f) == SumBy(s, f) - f(s[i]) + f(x)
  {
    var n := |s| - 1;
    if i == n {
      assert s[i := x][..n] == s[..n];
    } else {
      SumByUpdate(s[..n], i, x, f);
      assert s[i := x][..n] == s[..n][i := x];
    }
  }

  function Filter<T(!new)>(s: seq<T>, p: T -> bool): (r: seq<T>)
    ensures forall x :: x in r <==> x in s && p(x)
  {
    if s == [] then []
    else Filter(s[..|s| - 1], p) + (if p(s[|s| - 1]) then [s[|s| - 1]] else [])
  }

  lemma {:induction false} FilterConcat<T(!new)>(a: seq<T>, b: seq<T>, p: T -> bool)
    ensures Filter(a + b, p) == Filter(a, p) + Filter(b, p)
  {
    if b == [] {
      assert a + b == a;
    } else {
      assert (a + b)[..|a + b| - 1] == a + b[..|b| - 1];
      FilterConcat(a, b[..|b| - 1], p);
    }
  }

  lemma FilterNext<T(!new)>(s: seq<T>, x: T, p: T -> bool)
    ensures Filter(s + [x], p) == Filter(s, p) + (if p(x) then [x] else [])
  {
    assert (s + [x])[..|s|] == s;
  }

  lemma {:induction false} FilterAll<T(!new)>(s: seq<T>, p: T -> bool)
    requires forall i :: 0 <= i < |s| ==> p(s[i])
    ensures Filter(s, p) == s
  {
    if s != [] {
      hide Filter;
      var init, last := s[..|s| - 1], s[|s| - 1];
      assert p(last) && s == init + [last];
      assert Filter(init, p) == init by {
        FilterAll(init, p);
      }
      FilterNext(init, last, p);
    }
  }

  lemma {:induction false} FilterNone<T(!new)>(s: seq<T>, p: T -> bool)
    requires forall i :: 0 <= i < |s| ==> !p(s[i])
    ensures Filter(s, p) == []
  {
    if s != [] {
      FilterNone(s[..|s| - 1], p);
    }
  }

  lemma {:induction false} FilterCount<T(!new)>(s: seq<T>, p: T -> bool, x: T)
    ensures multiset(Filter(s, p))[x] == if p(x) then multiset(s)[x] else 0
  {
    if s != [] {
      FilterCount(s[..|s| - 1], p, x);
      assert s == s[..|s| - 1] + [s[|s| - 1]];
    }
  }

  /** Filtering two permutations gives two permutations. */
  lemma FilterPermutation<T(!new)>(a: seq<T>, b: seq<T>, p: T -> bool)
    requires multiset(a) == multiset(b)
    ensures multiset(Filter(a, p)) == multiset(Filter(b, p))
  {
    forall x ensures multiset(Filter(a, p))[x] == multiset(Filter(b, p))[x] {
      FilterCount(a, p, x);
      FilterCount(b, p, x);
    }
  }

  /** A filtered ordered list is ordered. */
  lemma {:induction false} FilterSorted<T(!new)>(s: seq<T>, p: T -> bool, le: (T, T) -> bool)
    requires SortedBy(s, le)
    ensures SortedBy(Filter(s, p), le)
  {
    if s != [] {
      FilterSorted(s[..|s| - 1], p, le);
      var r := Filter(s[..|s| - 1], p);
      forall i | 0 <= i < |r| ensures le(r[i], s[|s| - 1]) {
        assert r[i] in s[..|s| - 1];
        var k :| 0 <= k < |s| - 1 && s[..|s| - 1][k] == r[i];
        assert le(s[k], s[|s| - 1]);
      }
    }
  }

  /** A symmetric relation holds between any two positions. */
  ghost predicate Pairwise<T>(s: seq<T>, p: (T, T) -> bool) {
    forall i, j :: 0 <= i < j < |s| ==> p(s[i], s[j])
  }

  ghost predicate Symmetric<T(!new)>(p: (T, T) -> bool) {
    forall x, y :: p(x, y) <==> p(y, x)
  }

  lemma SortNext<T(!new)>(s: seq<T>, x: T, le: (T, T) -> bool)
    ensures Sort(s + [x], le) == Insert(Sort(s, le), x, le)
  {
    assert (s + [x])[..|s|] == s;
  }

  lemma InsertSole<T(!new)>(s: seq<T>, x: T, le: (T, T) -> bool)
    requires |s| == 1
    ensures Insert(s, x, le) == if le(s[0], x) then [s[0], x] else [x, s[0]]
  {
    assert s[..0] == [];
  }

  /** An element with two occurrences has two positions, and the other way round. */
  lemma {:induction false} TwoOccurrences<T(!new)>(s: seq<T>, x: T)
    ensures multiset(s)[x] >= 2 <==> exists i, j :: 0 <= i < j < |s| && s[i] == x && s[j] == x
  {
    if s != [] {
      var init, last := s[..|s| - 1], s[|s| - 1];
      assert s == init + [last];
      TwoOccurrences(init, x);
      if last == x && x in multiset(init) {
        assert x in init;
        var i :| 0 <= i < |init| && init[i] == x;
        assert s[i] == x && s[|init|] == x;
      }
      if i, j :| 0 <= i < j < |s| && s[i] == x && s[j] == x {
        assert x in init by {
          assert init[i] == x;
        }
        if last != x {
          assert init[j] == x;
        }
      }
    }
  }

  /** What holds between any two elements does not depend on their order. */
  lemma PermutationPairwise<T(!new)>(a: seq<T>, b: seq<T>, p: (T, T) -> bool)
    requires multiset(a) == multiset(b) && Symmetric(p) && Pairwise(a, p)
    ensures Pairwise(b, p)
  {
    SameElements(a, b);
    forall i, j | 0 <= i < j < |b| ensures p(b[i], b[j]) {
      if b[i] == b[j] {
        TwoOccurrences(b, b[i]);
        TwoOccurrences(a, b[i]);
      } else {
        assert b[i] in a && b[j] in a;
        var k :| 0 <= k < |a| && a[k] == b[i];
        var l :| 0 <= l < |a| && a[l] == b[j];
      }
    }
  }
}
