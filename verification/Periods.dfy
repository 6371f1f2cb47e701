/** Time periods and the merged list of what the cloud already holds.

    Instants are whole numbers of clock ticks; NULL_TIME stands for "not set" and
    MAX_TIME for "no end". A period covers begin (included) to end (excluded).
 */
module Periods {
  import opened Sorting

  const NULL_TIME: int := 0
  const MAX_TIME: int := 0x7FFF_FFFF_FFFF_FFFF

  datatype Period = Period(begin: int, end: int) {

    /** The end used in comparisons: an unset end never comes. */
    function EffectiveEnd(): int {
      if end != NULL_TIME then end else MAX_TIME
    }

    predicate Intersects(r: Period) {
      begin < r.EffectiveEnd() && EffectiveEnd() > r.begin
    }

    predicate Covers(t: int) {
      begin <= t < end
    }

    /** As far as comparisons go. */
    predicate Lasts(t: int) {
      begin <= t < EffectiveEnd()
    }

    predicate WellFormed() {
      begin <= end
    }
  }

  /** The period constructor: an unset end is stored as MAX_TIME. */
  function MakePeriod(begin: int, end: int): (p: Period)
    ensures p.end != NULL_TIME && p.EffectiveEnd() == p.end
  {
    Period(begin, if end == NULL_TIME then MAX_TIME else end)
  }

  /** A stored item: its end went through the constructor, so it is set. */
  type Item = p: Period | p.end != NULL_TIME witness Period(1, 1)

  predicate Covered(ps: seq<Period>, t: int) {
    exists i :: 0 <= i < |ps| && ps[i].Covers(t)
  }

  predicate SortedByBegin(ps: seq<Period>) {
    forall i, j :: 0 <= i < j < |ps| ==> ps[i].begin <= ps[j].begin
  }

  /** Neighbours are separated by at least one uncovered instant. */
  predicate Gapped(ps: seq<Period>) {
    forall i, j :: 0 <= i < j < |ps| ==> ps[i].end < ps[j].begin
  }

  predicate AllWellFormed(ps: seq<Period>) {
    forall p :: p in ps ==> p.WellFormed()
  }

  predicate AllNonEmpty(ps: seq<Period>) {
    forall p :: p in ps ==> p.begin < p.end
  }

  /** Periods of at least one instant intersect exactly if they have one in common; one
      whose end is not set goes on for ever. */
  lemma IntersectsIff(p: Period, r: Period)
    requires p.begin < p.EffectiveEnd() && r.begin < r.EffectiveEnd()
    ensures p.Intersects(r) <==> exists t :: p.Lasts(t) && r.Lasts(t)
  {
    var t := if p.begin < r.begin then r.begin else p.begin;
    assert p.Intersects(r) ==> p.Lasts(t) && r.Lasts(t);
  }

  /** A stored period covers what it was made to cover: from its begin up to its end, or,
      if that is not set, every time there is behind. */
  lemma MadeToCover(begin: int, end: int, t: int)
    requires t < 0x7FFF_FFFF_FFFF_FFFF
    ensures MakePeriod(begin, end).Covers(t) <==> begin <= t && (end != 0 ==> t < end)
  {
  }

  // ---------------------------------------------------------------- sorting

  lemma CoveredByMembers(a: seq<Period>, b: seq<Period>)
    requires forall p :: p in a <==> p in b
    ensures forall t :: Covered(a, t) <==> Covered(b, t)
  {
    forall t
      ensures Covered(a, t) <==> Covered(b, t)
    {
      if Covered(a, t) {
        var i :| 0 <= i < |a| && a[i].Covers(t);
        assert a[i] in b;
      }
      if Covered(b, t) {
        var i :| 0 <= i < |b| && b[i].Covers(t);
        assert b[i] in a;
      }
    }
  }

  predicate DistinctByBegin(ps: seq<Period>) {
    forall i, j :: 0 <= i < j < |ps| ==> ps[i].begin < ps[j].begin
  }

  lemma SameFirst(a: seq<Period>, b: seq<Period>)
    requires a != [] && b != [] && a[0] in b && b[0] in a
    requires SortedByBegin(a) && DistinctByBegin(b)
    ensures a[0] == b[0]
  {
    assert forall k :: 0 < k < |b| ==> b[0].begin < b[k].begin;
    var i :| 0 <= i < |a| && a[i] == b[0];
    assert a[0].begin <= a[i].begin;
    var j :| 0 <= j < |b| && b[j] == a[0];
  }

  lemma SameSize(a: seq<Period>, b: seq<Period>)
    requires multiset(a) == multiset(b)
    ensures |a| == |b|
  {
    assert |multiset(a)| == |a| && |multiset(b)| == |b|;
  }

  /** A strictly sorted list is the only sorted arrangement of its items. */
  lemma {:induction false} SortedPermutationUnique(a: seq<Period>, b: seq<Period>)
    requires multiset(a) == multiset(b)
    requires SortedByBegin(a) && DistinctByBegin(b)
    ensures a == b
  {
    SameSize(a, b);
    if b != [] {
      MembersOfPermutation(a, b);
      assert a[0] in b && b[0] in a;
      SameFirst(a, b);
      TailMembers(a);
      TailMembers(b);
      SortedPermutationUnique(a[1..], b[1..]);
      assert a == [a[0]] + a[1..] && b == [b[0]] + b[1..];
    }
  }

  // ---------------------------------------------------------------- merging

  /** Merges the items into disjoint periods. The result covers exactly the
      instants the items cover, in order, with a gap between any two periods;
      a list that is already of that form is returned as it is. */
  method SquashPeriods(items: seq<Item>) returns (result: seq<Period>)
    ensures forall t :: Covered(result, t) <==> Covered(items, t)
    ensures Gapped(result) && SortedByBegin(result)
    ensures forall p :: p in result ==> p.end != NULL_TIME
    ensures AllWellFormed(items) ==> AllWellFormed(result)
    ensures AllNonEmpty(items) ==> AllNonEmpty(result)
    ensures AllWellFormed(items) && Gapped(items) ==> result == items
  {
    result := [];
    if items != [] {
      var sorted := SortBy(items, (p: Item) => p.begin);
      MembersOfPermutation(sorted, items);
      CoveredByMembers(sorted, items);
      assert items[0] in sorted;
      result := MergeSorted(sorted);
      MergeStart(sorted);
      MergeFromForm(sorted, 1, [], MakePeriod(sorted[0].begin, sorted[0].end));
      GappedIsSorted(items, sorted);
    }
  }

  lemma GappedIsSorted(items: seq<Period>, sorted: seq<Period>)
    requires SortedByBegin(sorted) && multiset(sorted) == multiset(items)
    ensures AllWellFormed(items) && Gapped(items) ==> sorted == items
  {
    if AllWellFormed(items) && Gapped(items) {
      assert DistinctByBegin(items) by {
        forall i, j | 0 <= i < j < |items|
          ensures items[i].begin < items[j].begin
        {
          assert items[i] in items;
        }
      }
      SortedPermutationUnique(sorted, items);
    }
  }

  function MergeFrom(sorted: seq<Item>, i: nat, result: seq<Period>, current: Period): seq<Period>
    decreases |sorted| - i
  {
    if i >= |sorted| then result + [current]
    else if current.end >= sorted[i].begin then
      MergeFrom(sorted, i + 1, result,
                Period(current.begin, if current.end >= sorted[i].end then current.end else sorted[i].end))
    else
      MergeFrom(sorted, i + 1, result + [current], MakePeriod(sorted[i].begin, sorted[i].end))
  }

  function Merge(sorted: seq<Item>): seq<Period>
    requires sorted != []
  {
    MergeFrom(sorted, 1, [], MakePeriod(sorted[0].begin, sorted[0].end))
  }

  method MergeSorted(sorted: seq<Item>) returns (result: seq<Period>)
    requires sorted != []
    ensures result == Merge(sorted)
  {
    result := [];
    var current := MakePeriod(sorted[0].begin, sorted[0].end);
    var i := 1;
    while i < |sorted|
      invariant 1 <= i <= |sorted|
      invariant MergeFrom(sorted, i, result, current) == Merge(sorted)
    {
      if current.end >= sorted[i].begin {
        current := Period(current.begin, if current.end >= sorted[i].end then current.end else sorted[i].end);
      } else {
        result := result + [current];
        current := MakePeriod(sorted[i].begin, sorted[i].end);
      }
      i := i + 1;
    }
    result := result + [current];
  }

  lemma {:induction false} MergeFromForm(sorted: seq<Item>, i: nat, result: seq<Period>, current: Period)
    requires 1 <= i <= |sorted| && SortedByBegin(sorted)
    requires MergeState(sorted, i, result, current)
    ensures MergedForm(sorted, MergeFrom(sorted, i, result, current))
    ensures Gapped(sorted) ==> MergeFrom(sorted, i, result, current) == sorted
    decreases |sorted| - i
  {
    if i == |sorted| {
      assert sorted[..i] == sorted;
    } else {
      MergeStep(sorted, i, result, current);
      if current.end >= sorted[i].begin {
        MergeFromForm(sorted, i + 1, result,
                      Period(current.begin, if current.end >= sorted[i].end then current.end else sorted[i].end));
      } else {
        MergeFromForm(sorted, i + 1, result + [current], MakePeriod(sorted[i].begin, sorted[i].end));
      }
    }
  }

  /** The merge loop after i items: the finished periods and the current one are
      the merged form of those items. */
  ghost predicate MergeState(sorted: seq<Period>, i: nat, result: seq<Period>, current: Period)
    requires i <= |sorted|
  {
    && MergedForm(sorted[..i], result + [current])
    && (i < |sorted| ==> current.begin <= sorted[i].begin)
    && (Gapped(sorted) ==> result + [current] == sorted[..i])
  }

  lemma MergeStart(sorted: seq<Item>)
    requires sorted != [] && SortedByBegin(sorted)
    ensures MergeState(sorted, 1, [], MakePeriod(sorted[0].begin, sorted[0].end))
  {
    var first := sorted[0];
    assert MakePeriod(first.begin, first.end) == first;
    assert [] + [first] == [first] == sorted[..1];
    MergedFormOfOne(first);
  }

  lemma MergeStep(sorted: seq<Item>, i: nat, result: seq<Period>, current: Period)
    requires 1 <= i < |sorted| && SortedByBegin(sorted)
    requires MergeState(sorted, i, result, current)
    ensures current.end >= sorted[i].begin ==>
              MergeState(sorted, i + 1, result,
                         Period(current.begin, if current.end >= sorted[i].end then current.end else sorted[i].end))
    ensures current.end < sorted[i].begin ==>
              MergeState(sorted, i + 1, result + [current], MakePeriod(sorted[i].begin, sorted[i].end))
  {
    var next := sorted[i];
    assert sorted[..i + 1] == sorted[..i] + [next];
    if Gapped(sorted) {
      assert current == sorted[..i][i - 1] == sorted[i - 1];
    }
    if current.end >= next.begin {
      MergeKeepsForm(sorted[..i], next, result, current);
    } else {
      AppendKeepsForm(sorted[..i], next, result + [current]);
    }
  }

  /** What merging a list of items must give. */
  ghost predicate MergedForm(items: seq<Period>, result: seq<Period>) {
    && (forall t :: Covered(result, t) <==> Covered(items, t))
    && Gapped(result) && SortedByBegin(result)
    && (forall p :: p in result ==> p.end != NULL_TIME)
    && (AllWellFormed(items) ==> AllWellFormed(result))
    && (AllNonEmpty(items) ==> AllNonEmpty(result))
  }

  lemma MergedFormOfOne(p: Item)
    ensures MergedForm([p], [p])
  {
  }

  lemma CoveredAppend(ps: seq<Period>, p: Period, t: int)
    ensures Covered(ps + [p], t) <==> Covered(ps, t) || p.Covers(t)
  {
    var qs := ps + [p];
    if Covered(ps, t) {
      var i :| 0 <= i < |ps| && ps[i].Covers(t);
      assert qs[i].Covers(t);
    }
    if p.Covers(t) {
      assert qs[|ps|].Covers(t);
    }
  }

  lemma MergeKeepsForm(items: seq<Period>, next: Item, result: seq<Period>, current: Period)
    requires MergedForm(items, result + [current])
    requires current.begin <= next.begin <= current.end
    ensures MergedForm(items + [next],
                       result + [Period(current.begin, if current.end >= next.end then current.end else next.end)])
  {
    var merged := Period(current.begin, if current.end >= next.end then current.end else next.end);
    forall t
      ensures Covered(result + [merged], t) <==> Covered(items + [next], t)
    {
      CoveredAppend(items, next, t);
      CoveredAppend(result, current, t);
      CoveredAppend(result, merged, t);
    }
    ReplaceLast(result, current, merged);
    assert current in result + [current];
    assert forall p :: p in items ==> p in items + [next];
    assert next in items + [next];
    assert forall p :: p in result + [merged] ==> p == merged || p in result + [current];
  }

  /** Lengthening the last period keeps order and gaps. */
  lemma ReplaceLast(ps: seq<Period>, p: Period, q: Period)
    requires p.begin == q.begin
    requires Gapped(ps + [p]) && SortedByBegin(ps + [p])
    ensures Gapped(ps + [q]) && SortedByBegin(ps + [q])
  {
    var before, after := ps + [p], ps + [q];
    forall j, k | 0 <= j < k < |after|
      ensures after[j].end < after[k].begin && after[j].begin <= after[k].begin
    {
      assert after[j] == before[j] && after[k].begin == before[k].begin;
    }
  }

  /** A period that starts after the last one ends may be appended. */
  lemma AppendLast(ps: seq<Period>, p: Period)
    requires ps != [] && Gapped(ps) && SortedByBegin(ps)
    requires ps[|ps| - 1].end < p.begin && ps[|ps| - 1].begin <= p.begin
    ensures Gapped(ps + [p]) && SortedByBegin(ps + [p])
  {
    var after := ps + [p];
    forall j, k | 0 <= j < k < |after|
      ensures after[j].end < after[k].begin && after[j].begin <= after[k].begin
    {
      if k == |ps| && j < |ps| - 1 {
        assert ps[j].end < ps[|ps| - 1].begin;
      }
    }
  }

  lemma AppendKeepsForm(items: seq<Period>, next: Item, result: seq<Period>)
    requires MergedForm(items, result) && result != []
    requires result[|result| - 1].end < next.begin && result[|result| - 1].begin <= next.begin
    ensures MergedForm(items + [next], result + [next])
  {
    forall t
      ensures Covered(result + [next], t) <==> Covered(items + [next], t)
    {
      CoveredAppend(items, next, t);
      CoveredAppend(result, next, t);
    }
    AppendLast(result, next);
    assert forall p :: p in items ==> p in items + [next];
    assert next in items + [next];
  }

  // ------------------------------------------------------------- uniqueness

  /** The merged form is canonical: two gapped lists of non-empty periods that
      cover the same instants are the same list. So the merge does not depend on
      how the sort arranges items with equal begins. */
  lemma {:induction false} MergedFormUnique(a: seq<Period>, b: seq<Period>)
    requires Gapped(a) && Gapped(b) && AllNonEmpty(a) && AllNonEmpty(b)
    requires forall t :: Covered(a, t) <==> Covered(b, t)
    ensures a == b
  {
    assert (a == []) == (b == []) by {
      NonEmptyCovers(a);
      NonEmptyCovers(b);
    }
    if a != [] {
      FirstPeriodWithin(a, b);
      FirstPeriodWithin(b, a);
      assert a[0] == b[0];
      forall t
        ensures Covered(a[1..], t) <==> Covered(b[1..], t)
      {
        CoveredTail(a, t);
        CoveredTail(b, t);
      }
      MergedFormUnique(a[1..], b[1..]);
    }
  }

  lemma NonEmptyCovers(ps: seq<Period>)
    requires AllNonEmpty(ps)
    ensures ps == [] <==> forall t :: !Covered(ps, t)
  {
    if ps != [] {
      assert ps[0] in ps;
      assert ps[0].Covers(ps[0].begin);
      assert Covered(ps, ps[0].begin);
    }
  }

  lemma CoveredTail(ps: seq<Period>, t: int)
    requires ps != [] && Gapped(ps) && AllNonEmpty(ps)
    ensures Covered(ps[1..], t) <==> Covered(ps, t) && !ps[0].Covers(t)
  {
    if Covered(ps[1..], t) {
      var i :| 0 <= i < |ps[1..]| && ps[1..][i].Covers(t);
      assert ps[i + 1].Covers(t) && ps[0].end < ps[i + 1].begin;
    }
    if Covered(ps, t) && !ps[0].Covers(t) {
      var i :| 0 <= i < |ps| && ps[i].Covers(t);
      assert ps[1..][i - 1].Covers(t);
    }
  }

  /** The first period of one list starts no earlier than the first of the other,
      and, when they start together, ends no later. */
  lemma FirstPeriodWithin(a: seq<Period>, b: seq<Period>)
    requires a != [] && b != []
    requires Gapped(a) && Gapped(b) && AllNonEmpty(a) && AllNonEmpty(b)
    requires forall t :: Covered(a, t) <==> Covered(b, t)
    ensures b[0].begin <= a[0].begin
    ensures a[0].begin == b[0].begin ==> b[0].end <= a[0].end
  {
    assert a[0].Covers(a[0].begin);
    assert Covered(b, a[0].begin);
    var i :| 0 <= i < |b| && b[i].Covers(a[0].begin);
    assert b[0].begin <= b[i].begin;
    if a[0].begin == b[0].begin {
      var t := a[0].end;
      assert !Covered(a, t) by {
        forall j | 0 <= j < |a|
          ensures !a[j].Covers(t)
        {
          assert j > 0 ==> a[0].end < a[j].begin;
        }
      }
      assert !b[0].Covers(t);
    }
  }
}
