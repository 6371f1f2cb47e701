/** Sorting by a key, as the library sort promises it: the result is ordered and
    holds the same elements; the order of equal keys is not fixed. */
module Sorting {

  ghost predicate SortedBy<T>(xs: seq<T>, key: T --> int)
    requires forall x :: x in xs ==> key.requires(x)
  {
    forall i, j :: 0 <= i < j < |xs| ==> key(xs[i]) <= key(xs[j])
  }

  method SortBy<T>(xs: seq<T>, key: T --> int) returns (sorted: seq<T>)
    requires forall x :: x in xs ==> key.requires(x)
    ensures multiset(sorted) == multiset(xs)
    ensures forall x :: x in sorted ==> x in xs
    ensures SortedBy(sorted, key)
  {
    sorted := [];
    for i := 0 to |xs|
      invariant multiset(sorted) == multiset(xs[..i])
      invariant forall x :: x in sorted ==> x in xs
      invariant SortedBy(sorted, key)
    {
      sorted := Insert(sorted, xs[i], key);
      assert xs[..i + 1] == xs[..i] + [xs[i]];
    }
    assert xs[..|xs|] == xs;
  }

  method Insert<T>(sorted: seq<T>, x: T, key: T --> int) returns (r: seq<T>)
    requires (forall y :: y in sorted ==> key.requires(y)) && key.requires(x)
    requires SortedBy(sorted, key)
    ensures multiset(r) == multiset(sorted) + multiset{x}
    ensures forall y :: y in r ==> y == x || y in sorted
    ensures SortedBy(r, key)
  {
    var k := |sorted|;
    while k > 0 && key(sorted[k - 1]) > key(x)
      invariant 0 <= k <= |sorted|
      invariant forall i :: k <= i < |sorted| ==> key(sorted[i]) > key(x)
    {
      k := k - 1;
    }
    r := sorted[..k] + [x] + sorted[k..];
    InsertKeepsMembers(sorted, k, x);
    InsertKeepsOrder(sorted, k, x, key);
  }

  lemma InsertKeepsMembers<T>(s: seq<T>, k: nat, x: T)
    requires k <= |s|
    ensures multiset(s[..k] + [x] + s[k..]) == multiset(s) + multiset{x}
  {
    assert s == s[..k] + s[k..];
  }

  lemma InsertKeepsOrder<T>(s: seq<T>, k: nat, x: T, key: T --> int)
    requires (forall y :: y in s ==> key.requires(y)) && key.requires(x)
    requires k <= |s| && SortedBy(s, key)
    requires k > 0 ==> key(s[k - 1]) <= key(x)
    requires k < |s| ==> key(x) <= key(s[k])
    ensures forall y :: y in s[..k] + [x] + s[k..] ==> key.requires(y)
    ensures SortedBy(s[..k] + [x] + s[k..], key)
  {
    var r := s[..k] + [x] + s[k..];
    forall i, j | 0 <= i < j < |r|
      ensures key(r[i]) <= key(r[j])
    {
      assert r[i] == if i < k then s[i] else if i == k then x else s[i - 1];
      assert r[j] == if j < k then s[j] else if j == k then x else s[j - 1];
      if i < k {
        assert key(s[i]) <= key(s[k - 1]);
      }
      if j > k {
        assert key(s[k]) <= key(s[j - 1]);
      }
    }
  }

  lemma MembersOfPermutation<T>(a: seq<T>, b: seq<T>)
    requires multiset(a) == multiset(b)
    ensures forall x :: x in a <==> x in b
  {
    forall x
      ensures x in a <==> x in b
    {
      assert x in a <==> x in multiset(a);
      assert x in b <==> x in multiset(b);
    }
  }

  lemma TailMembers<T>(s: seq<T>)
    requires s != []
    ensures multiset(s[1..]) == multiset(s) - multiset{s[0]}
  {
    assert s == [s[0]] + s[1..];
  }
}
