/** Lexicographic order on sequences, hence Python's order on strings and on tuples of strings. */
module Orders {
  import opened Sorting

  predicate LexLe<T(==)>(a: seq<T>, b: seq<T>, le: (T, T) -> bool) {
    if a == [] then true
    else if b == [] then false
    else if a[0] == b[0] then LexLe(a[1..], b[1..], le)
    else le(a[0], b[0])
  }

  ghost predicate TotalOrder<T(!new)>(le: (T, T) -> bool) {
    TotalPreorder(le) && forall x, y :: le(x, y) && le(y, x) ==> x == y
  }

  lemma {:induction false} LexTotal<T(!new)>(a: seq<T>, b: seq<T>, le: (T, T) -> bool)
    requires TotalOrder(le)
    ensures LexLe(a, b, le) || LexLe(b, a, le)
  {
    if a != [] && b != [] && a[0] == b[0] {
      LexTotal(a[1..], b[1..], le);
    }
  }

  lemma {:induction false} LexAntisymmetric<T(!new)>(a: seq<T>, b: seq<T>, le: (T, T) -> bool)
    requires TotalOrder(le)
    requires LexLe(a, b, le) && LexLe(b, a, le)
    ensures a == b
  {
    if a != [] && b != [] {
      LexAntisymmetric(a[1..], b[1..], le);
      assert a == [a[0]] + a[1..] && b == [b[0]] + b[1..];
    }
  }

  lemma {:induction false} LexTransitive<T(!new)>(a: seq<T>, b: seq<T>, c: seq<T>, le: (T, T) -> bool)
    requires TotalOrder(le)
    requires LexLe(a, b, le) && LexLe(b, c, le)
    ensures LexLe(a, c, le)
  {
    if a != [] && b != [] && c != [] && a[0] == b[0] == c[0] {
      LexTransitive(a[1..], b[1..], c[1..], le);
    }
  }

  predicate CharLe(a: char, b: char) { a <= b }

  /** Python's `<=` on strings. */
  predicate StringLe(a: string, b: string) { LexLe(a, b, CharLe) }

  /** Python's `<=` on tuples of strings. */
  predicate TupleLe(a: seq<string>, b: seq<string>) { LexLe(a, b, StringLe) }

  lemma StringOrder(a: string, b: string, c: string)
    ensures StringLe(a, b) || StringLe(b, a)
    ensures StringLe(a, b) && StringLe(b, a) ==> a == b
    ensures StringLe(a, b) && StringLe(b, c) ==> StringLe(a, c)
  {
    assert TotalOrder(CharLe);
    LexTotal(a, b, CharLe);
    if StringLe(a, b) && StringLe(b, a) {
      LexAntisymmetric(a, b, CharLe);
    }
    if StringLe(a, b) && StringLe(b, c) {
      LexTransitive(a, b, c, CharLe);
    }
  }
}
