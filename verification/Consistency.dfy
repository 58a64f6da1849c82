/**
  app/calendar_sync/consistency.py: the checker compares neighbours of the chronological
  list, and is nevertheless exact about all pairs.
 */
module Consistency {
  import opened Prelude
  import opened Sorting
  import opened Orders
  import opened Intervals

  datatype CheckedSession = CheckedSession(id: string, order: int, span: TimeInterval, deleted: bool)

  datatype Issue =
    | InvalidOrder(ids: seq<string>)
    | SessionsOverlap(first: string, second: string)
    | BreakViolation(first: string, second: string)
    | AfterDeadline(id: string)
    | DeletedSession(id: string)

  datatype Error = NegativeBreak

  predicate Active(s: CheckedSession) { !s.deleted }

  predicate Deleted(s: CheckedSession) { s.deleted }

  /** By order, then the id's text. */
  predicate OrderLe(a: CheckedSession, b: CheckedSession) {
    a.order < b.order || (a.order == b.order && StringLe(a.id, b.id))
  }

  /** By start, end, order and the id's text. */
  predicate TimeLe(a: CheckedSession, b: CheckedSession) {
    if a.span != b.span then SpanLe(a.span, b.span) else OrderLe(a, b)
  }

  function Ids(sessions: seq<CheckedSession>): seq<string> {
    seq(|sessions|, i requires 0 <= i < |sessions| => sessions[i].id)
  }

  function Chronological(sessions: seq<CheckedSession>): seq<CheckedSession> {
    Sort(Filter(sessions, Active), TimeLe)
  }

  function Ordered(sessions: seq<CheckedSession>): seq<CheckedSession> {
    Sort(Filter(sessions, Active), OrderLe)
  }

  function NeighbourIssue(previous: CheckedSession, current: CheckedSession, gap: int): seq<Issue> {
    if current.span.start < previous.span.end then [SessionsOverlap(previous.id, current.id)]
    else if gap != 0 && current.span.start - previous.span.end < gap then [BreakViolation(previous.id, current.id)]
    else []
  }

  function NeighbourIssues(s: seq<CheckedSession>, gap: int): seq<Issue> {
    if |s| < 2 then []
    else NeighbourIssues(s[..|s| - 1], gap) + NeighbourIssue(s[|s| - 2], s[|s| - 1], gap)
  }

  /** Python's `max` by end: the first of the latest. */
  function Latest(s: seq<CheckedSession>): (r: CheckedSession)
    requires s != []
    ensures r in s
    ensures forall x | x in s :: x.span.end <= r.span.end
  {
    if |s| == 1 then s[0]
    else
      var r := Latest(s[..|s| - 1]);
      assert forall x | x in s :: x == s[|s| - 1] || x in s[..|s| - 1];
      if s[|s| - 1].span.end > r.span.end then s[|s| - 1] else r
  }

  function DeadlineIssues(s: seq<CheckedSession>, deadline: Option<int>): seq<Issue> {
    if deadline.Some? && s != [] && Latest(s).span.end > deadline.value then [AfterDeadline(Latest(s).id)] else []
  }

  function DeletedIssues(s: seq<CheckedSession>): seq<Issue> {
    seq(|s|, i requires 0 <= i < |s| => DeletedSession(s[i].id))
  }

  function OrderIssues(sessions: seq<CheckedSession>): seq<Issue> {
    if Ids(Chronological(sessions)) != Ids(Ordered(sessions)) then [InvalidOrder(Ids(Ordered(sessions)))] else []
  }

  function Issues(sessions: seq<CheckedSession>, gap: int, deadline: Option<int>): seq<Issue> {
    OrderIssues(sessions)
    + NeighbourIssues(Chronological(sessions), gap)
    + DeadlineIssues(Chronological(sessions), deadline)
    + DeletedIssues(Sort(Filter(sessions, Deleted), OrderLe))
  }

  /** The neighbour loop of `check`. */
  method CompareNeighbours(chronological: seq<CheckedSession>, gap: int) returns (issues: seq<Issue>)
    ensures issues == NeighbourIssues(chronological, gap)
  {
    issues := [];
    var i := Min(1, |chronological|);
    while i < |chronological|
      invariant Min(1, |chronological|) <= i <= |chronological|
      invariant issues == NeighbourIssues(chronological[..i], gap)
    {
      assert chronological[..i + 1][..i] == chronological[..i];
      var previous, current := chronological[i - 1], chronological[i];
      if current.span.start < previous.span.end {
        issues := issues + [SessionsOverlap(previous.id, current.id)];
      } else if gap != 0 && current.span.start - previous.span.end < gap {
        issues := issues + [BreakViolation(previous.id, current.id)];
      }
      i := i + 1;
    }
    assert chronological[..|chronological|] == chronological;
  }

  /** All the issues of `check`, in the order it finds them. */
  method CollectIssues(sessions: seq<CheckedSession>, gap: int, deadline: Option<int>) returns (issues: seq<Issue>)
    ensures issues == Issues(sessions, gap, deadline)
  {
    hide Chronological, Ordered, NeighbourIssues;
    var chronological, ordered := Chronological(sessions), Ordered(sessions);
    issues := if Ids(chronological) != Ids(ordered) then [InvalidOrder(Ids(ordered))] else [];
    var neighbours := CompareNeighbours(chronological, gap);
    var late: seq<Issue> := [];
    if deadline.Some? && chronological != [] {
      var latest := Latest(chronological);
      if latest.span.end > deadline.value {
        late := [AfterDeadline(latest.id)];
      }
    }
    issues := issues + neighbours + late + DeletedIssues(Sort(Filter(sessions, Deleted), OrderLe));
  }

  /** `check`: consistent when there are no issues. */
  method Check(sessions: seq<CheckedSession>, minimumBreak: int, deadline: Option<int>)
    returns (r: Result<(bool, seq<Issue>), Error>)
    ensures minimumBreak < 0 <==> r == Err(NegativeBreak)
    ensures r.Ok? ==> r.value.1 == Issues(sessions, minimumBreak * MINUTE, deadline)
    ensures r.Ok? ==>
      (r.value.0 && OrderedAlike(sessions) <==> AllSeparated(sessions, minimumBreak * MINUTE, deadline))
  {
    hide Issues, OrderedAlike, AllSeparated;
    if minimumBreak < 0 {
      return Err(NegativeBreak);
    }
    var issues := CollectIssues(sessions, minimumBreak * MINUTE, deadline);
    SeparatedIff(sessions, minimumBreak * MINUTE, deadline);
    return Ok((issues == [], issues));
  }

  // ----- exactness -----

  predicate DifferentIds(a: CheckedSession, b: CheckedSession) { a.id != b.id }

  ghost predicate UniqueIds(sessions: seq<CheckedSession>) {
    Pairwise(sessions, DifferentIds)
  }

  /** In sequence with the gap between any two. */
  ghost predicate Sequential(s: seq<CheckedSession>, gap: int) {
    forall i, j :: 0 <= i < j < |s| ==> s[i].span.end + gap <= s[j].span.start
  }

  /** Nothing deleted, every pair in order separated in time, and all done by the deadline. */
  ghost predicate AllSeparated(sessions: seq<CheckedSession>, gap: int, deadline: Option<int>) {
    && (forall s | s in sessions :: !s.deleted)
    && Sequential(Ordered(sessions), gap)
    && (deadline.Some? ==> forall s | s in sessions :: s.span.end <= deadline.value)
  }

  lemma OrderIsTotal()
    ensures TotalPreorder(OrderLe) && TotalPreorder(TimeLe)
    ensures forall a, b :: OrderLe(a, b) && OrderLe(b, a) ==> a.id == b.id
    ensures forall a, b :: TimeLe(a, b) && TimeLe(b, a) ==> a.id == b.id
  {
    hide StringLe;
    forall a: CheckedSession, b: CheckedSession
      ensures OrderLe(a, b) || OrderLe(b, a)
      ensures OrderLe(a, b) && OrderLe(b, a) ==> a.id == b.id
    {
      StringOrder(a.id, b.id, a.id);
    }
    forall a: CheckedSession, b: CheckedSession, c: CheckedSession | OrderLe(a, b) && OrderLe(b, c)
      ensures OrderLe(a, c)
    {
      StringOrder(a.id, b.id, c.id);
    }
  }

  lemma {:induction false} FilterKeepsUnique(sessions: seq<CheckedSession>, p: CheckedSession -> bool)
    requires UniqueIds(sessions)
    ensures UniqueIds(Filter(sessions, p))
  {
    if sessions != [] {
      var init, last := sessions[..|sessions| - 1], sessions[|sessions| - 1];
      FilterKeepsUnique(init, p);
      var r := Filter(init, p);
      forall i | 0 <= i < |r| ensures DifferentIds(r[i], last) {
        assert r[i] in init;
        var k :| 0 <= k < |init| && init[k] == r[i];
        assert DifferentIds(sessions[k], sessions[|sessions| - 1]);
      }
    }
  }

  /**
    Of two active sessions with one id, the one first by order (the one given first, for equal
    orders) starts first.
   */
  ghost predicate OrderedAlike(sessions: seq<CheckedSession>) {
    var o := Ordered(sessions);
    forall i, j :: 0 <= i < j < |o| && o[i].id == o[j].id ==> o[i].span.start <= o[j].span.start
  }

  lemma UniqueIsOrderedAlike(sessions: seq<CheckedSession>)
    requires UniqueIds(sessions)
    ensures OrderedAlike(sessions)
  {
    FilterKeepsUnique(sessions, Active);
    PermutationPairwise(Filter(sessions, Active), Ordered(sessions), DifferentIds);
    var o := Ordered(sessions);
    forall i, j | 0 <= i < j < |o| ensures o[i].id != o[j].id {
      assert DifferentIds(o[i], o[j]);
    }
  }

  /** In sequence, no session stands in two places. */
  lemma SequentialDistinct(s: seq<CheckedSession>, gap: int, x: CheckedSession)
    requires gap >= 0 && Sequential(s, gap)
    ensures multiset(s)[x] < 2
  {
    TwoOccurrences(s, x);
  }

  lemma ElementAt(s: seq<CheckedSession>, x: CheckedSession) returns (i: nat)
    requires x in s
    ensures i < |s| && s[i] == x
  {
    i :| 0 <= i < |s| && s[i] == x;
  }

  lemma LaterStartsLater(s: seq<CheckedSession>, gap: int, i: nat, j: nat)
    requires gap >= 0 && Sequential(s, gap)
    ensures i < j < |s| ==> s[i].span.start < s[j].span.start
  {
  }

  /** One more place of two lists with the same ids: sessions of one id come in the same order in both. */
  lemma SamePlace(c: seq<CheckedSession>, o: seq<CheckedSession>, gap: int, i: nat)
    requires gap >= 0 && Sequential(c, gap) && multiset(c) == multiset(o) && Ids(c) == Ids(o)
    requires forall j, k :: 0 <= j < k < |o| && o[j].id == o[k].id ==> o[j].span.start <= o[k].span.start
    requires i < |c| == |o| && forall j :: 0 <= j < i ==> c[j] == o[j]
    ensures c[i] == o[i]
  {
    SameElements(c, o);
    assert Ids(c)[i] == Ids(o)[i];
    var k := ElementAt(o, c[i]);
    var l := ElementAt(c, o[i]);
    SequentialDistinct(c, gap, c[i]);
    TwoOccurrences(c, c[i]);
    SequentialDistinct(c, gap, o[i]);
    TwoOccurrences(o, o[i]);
    assert k >= i && l >= i;
    LaterStartsLater(c, gap, i, l);
  }

  lemma {:induction false} SameLists(c: seq<CheckedSession>, o: seq<CheckedSession>, gap: int, n: nat)
    requires gap >= 0 && Sequential(c, gap) && multiset(c) == multiset(o) && Ids(c) == Ids(o)
    requires forall j, k :: 0 <= j < k < |o| && o[j].id == o[k].id ==> o[j].span.start <= o[k].span.start
    requires n <= |c| == |o|
    ensures forall j :: 0 <= j < n ==> c[j] == o[j]
  {
    if n > 0 {
      SameLists(c, o, gap, n - 1);
      SamePlace(c, o, gap, n - 1);
    }
  }

  /** A list in time sequence is in chronological order, and sessions of one id are in order. */
  lemma SequentialIsChronological(sessions: seq<CheckedSession>, gap: int)
    requires gap >= 0 && Sequential(Ordered(sessions), gap)
    ensures Chronological(sessions) == Ordered(sessions) && OrderedAlike(sessions)
  {
    var active := Filter(sessions, Active);
    OrderIsTotal();
    SortIsSorted(active, TimeLe);
    var o := Ordered(sessions);
    forall i, j | 0 <= i < j < |o| ensures o[i].span.start < o[j].span.start && TimeLe(o[i], o[j]) {
      assert o[i].span.end + gap <= o[j].span.start;
    }
    SameElements(Chronological(sessions), o);
    forall x, y | x in Chronological(sessions) && y in Chronological(sessions) && TimeLe(x, y) && TimeLe(y, x)
      ensures x == y
    {
      var i := ElementAt(o, x);
      var j := ElementAt(o, y);
    }
    SortedUnique(Chronological(sessions), o, TimeLe);
  }

  lemma SequentialNext(init: seq<CheckedSession>, b: CheckedSession, gap: int)
    requires gap >= 0 && init != [] && Sequential(init, gap)
    requires init[|init| - 1].span.end + gap <= b.span.start
    ensures Sequential(init + [b], gap)
  {
    forall i | 0 <= i < |init| ensures init[i].span.end + gap <= b.span.start {
      assert i < |init| - 1 ==> init[i].span.end + gap <= init[|init| - 1].span.start;
    }
  }

  /** No neighbour issue means every pair is separated. */
  lemma {:induction false} NeighboursSuffice(s: seq<CheckedSession>, gap: int)
    requires gap >= 0
    ensures NeighbourIssues(s, gap) == [] <==> Sequential(s, gap)
  {
    if |s| >= 2 {
      var init, a, b := s[..|s| - 1], s[|s| - 2], s[|s| - 1];
      NeighboursSuffice(init, gap);
      if NeighbourIssues(s, gap) == [] {
        assert a.span.end + gap <= b.span.start;
        SequentialNext(init, b, gap);
        assert s == init + [b];
      }
      if Sequential(s, gap) {
        assert s[|s| - 2].span.end + gap <= s[|s| - 1].span.start;
      }
    }
  }

  /**
    The checker, exactly: everything is separated, on time and present exactly when there are no
    issues and sessions that share an id are ordered alike by order and by time.
   */
  lemma {:induction false} SeparatedIff(sessions: seq<CheckedSession>, gap: int, deadline: Option<int>)
    requires gap >= 0
    ensures AllSeparated(sessions, gap, deadline) <==>
            Issues(sessions, gap, deadline) == [] && OrderedAlike(sessions)
  {
    hide NeighbourIssues, Sequential, Chronological, Ordered;
    var chronological, ordered := Chronological(sessions), Ordered(sessions);
    NeighboursSuffice(chronological, gap);
    NothingDeleted(sessions);
    DeadlineMet(sessions, deadline);
    if Issues(sessions, gap, deadline) == [] && OrderedAlike(sessions) {
      BothPermute(sessions);
      assert |Ids(chronological)| == |Ids(ordered)|;
      SameLists(chronological, ordered, gap, |chronological|);
      assert chronological == ordered;
    }
    if Sequential(ordered, gap) {
      SequentialIsChronological(sessions, gap);
    }
  }

  lemma BothPermute(sessions: seq<CheckedSession>)
    ensures multiset(Chronological(sessions)) == multiset(Ordered(sessions))
  {
  }

  /** With unique ids, no issues exactly when everything is separated, on time and present. */
  lemma {:induction false} NoIssuesIff(sessions: seq<CheckedSession>, gap: int, deadline: Option<int>)
    requires UniqueIds(sessions) && gap >= 0
    ensures Issues(sessions, gap, deadline) == [] <==> AllSeparated(sessions, gap, deadline)
  {
    hide Issues, AllSeparated, OrderedAlike;
    SeparatedIff(sessions, gap, deadline);
    UniqueIsOrderedAlike(sessions);
  }

  lemma NothingDeleted(sessions: seq<CheckedSession>)
    ensures DeletedIssues(Sort(Filter(sessions, Deleted), OrderLe)) == [] <==> forall s | s in sessions :: !s.deleted
  {
    hide Sort, OrderLe;
    var gone := Filter(sessions, Deleted);
    assert |DeletedIssues(Sort(gone, OrderLe))| == |gone|;
    if gone != [] {
      assert gone[0] in sessions;
    } else {
      forall s | s in sessions ensures !s.deleted {
        assert s !in gone;
      }
    }
  }

  lemma DeadlineMet(sessions: seq<CheckedSession>, deadline: Option<int>)
    ensures (forall s | s in sessions :: !s.deleted) ==>
      (DeadlineIssues(Chronological(sessions), deadline) == [] <==>
       (deadline.Some? ==> forall s | s in sessions :: s.span.end <= deadline.value))
  {
    var chronological := Chronological(sessions);
    SameElements(chronological, Filter(sessions, Active));
    if (forall s | s in sessions :: !s.deleted) && deadline.Some? && chronological != [] {
      assert Latest(chronological) in sessions;
      assert forall s | s in sessions :: s in chronological;
    }
  }

  lemma SortTwo(a: CheckedSession, b: CheckedSession, le: (CheckedSession, CheckedSession) -> bool)
    ensures Sort([a, b], le) == if le(a, b) then [a, b] else [b, a]
  {
    var none: seq<CheckedSession> := [];
    var one := none + [a];
    SortNext(none, a, le);
    SortNext(one, b, le);
    InsertSole(one, b, le);
  }

  lemma FilterTwo(a: CheckedSession, b: CheckedSession)
    requires !a.deleted && !b.deleted
    ensures Filter([a, b], Active) == [a, b] && Filter([a, b], Deleted) == []
  {
    assert [a, b][..1] == [a] && [a][..0] == [];
    assert Filter([a], Active) == Filter([], Active) + [a] == [a];
    assert Filter([a], Deleted) == Filter([], Deleted) + [] == [];
  }

  /** Any two sessions of one id that swap places pass the checker: it compares ids only. */
  lemma {:induction false} RepeatedIdsFool(late: CheckedSession, early: CheckedSession)
    requires late.id == early.id && late.order < early.order && !late.deleted && !early.deleted
    requires early.span.end <= late.span.start
    ensures Issues([late, early], 0, None) == [] && !AllSeparated([late, early], 0, None)
  {
    hide Sort, Filter, NeighbourIssues, StringLe, Sequential;
    FilterTwo(late, early);
    SortTwo(late, early, TimeLe);
    SortTwo(late, early, OrderLe);
    var chronological, ordered := Chronological([late, early]), Ordered([late, early]);
    assert chronological == [early, late] && ordered == [late, early];
    assert Ids(chronological) == Ids(ordered);
    InSequence(early, late);
    NeighboursSuffice(chronological, 0);
  }

  lemma InSequence(a: CheckedSession, b: CheckedSession)
    requires a.span.end <= b.span.start
    ensures Sequential([a, b], 0) && !Sequential([b, a], 0)
  {
    assert [b, a][0].span.end > [b, a][1].span.start;
  }
}
