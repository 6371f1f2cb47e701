/** The uploader's work list: dropping canceled segmenters, choosing the current
    one, and purging what is finished. */
module Listing {
  import opened Segments

  ghost predicate Known<Id>(segs: map<Id, Segment>, list: seq<Id>) {
    forall id :: id in list ==> id in segs
  }

  /** The list without its canceled segmenters. */
  ghost function Live<Id>(segs: map<Id, Segment>, list: seq<Id>): (r: seq<Id>)
    requires Known(segs, list)
    ensures forall id :: id in r ==> id in list && !segs[id].canceled
    ensures forall id :: id in list && !segs[id].canceled ==> id in r
  {
    if list == [] then []
    else if segs[list[0]].canceled then Live(segs, list[1..])
    else [list[0]] + Live(segs, list[1..])
  }

  /** One segmenter further, with those kept so far in front. */
  lemma LiveNext<Id>(segs: map<Id, Segment>, list: seq<Id>, i: nat, before: seq<Id>)
    requires Known(segs, list) && i < |list|
    ensures before + Live(segs, list[i..])
            == before + (if segs[list[i]].canceled then [] else [list[i]]) + Live(segs, list[i + 1..])
  {
    assert list[i..][0] == list[i] && list[i..][1..] == list[i + 1..];
  }

  ghost predicate Ordered<Id>(segs: map<Id, Segment>, list: seq<Id>)
    requires Known(segs, list)
  {
    forall i, j :: 0 <= i < j < |list| ==> segs[list[i]].range.begin <= segs[list[j]].range.begin
  }

  /** How many segmenters at the front of the list are processed. */
  ghost function Leading<Id>(segs: map<Id, Segment>, list: seq<Id>): (n: nat)
    requires Known(segs, list)
    ensures n <= |list|
    ensures forall i :: 0 <= i < n ==> segs[list[i]].processed
    ensures n < |list| ==> !segs[list[n]].processed
  {
    if list == [] || !segs[list[0]].processed then 0 else 1 + Leading(segs, list[1..])
  }

  /** What a purge with these flags may free. */
  predicate Removable(x: Segment, finished: bool, processed: bool) {
    || (finished && x.finished)
    || (!finished && processed && x.processed)
    || (!finished && !processed)
  }

  /** Finished ones if those are asked for, else processed ones if those are, else all. */
  lemma RemovableIff(x: Segment)
    ensures (Removable(x, true, true) <==> x.finished) && (Removable(x, true, false) <==> x.finished)
    ensures (Removable(x, false, true) <==> x.processed) && Removable(x, false, false)
  {
  }

  ghost function Count<Id>(segs: map<Id, Segment>, list: seq<Id>, finished: bool, processed: bool): nat
    requires Known(segs, list)
  {
    if list == [] then 0
    else (if Removable(segs[list[0]], finished, processed) then 1 else 0) + Count(segs, list[1..], finished, processed)
  }

  /** The list without its first k removable segmenters. */
  ghost function Drop<Id>(segs: map<Id, Segment>, list: seq<Id>, finished: bool, processed: bool, k: nat): seq<Id>
    requires Known(segs, list)
  {
    if list == [] then []
    else if Removable(segs[list[0]], finished, processed) && k > 0 then
      Drop(segs, list[1..], finished, processed, k - 1)
    else [list[0]] + Drop(segs, list[1..], finished, processed, k)
  }

  lemma DropNext<Id>(segs: map<Id, Segment>, list: seq<Id>, finished: bool, processed: bool, k: nat, i: nat,
                     before: seq<Id>)
    requires Known(segs, list) && i < |list|
    ensures before + Drop(segs, list[i..], finished, processed, k) ==
              if Removable(segs[list[i]], finished, processed) && k > 0
              then before + Drop(segs, list[i + 1..], finished, processed, k - 1)
              else (before + [list[i]]) + Drop(segs, list[i + 1..], finished, processed, k)
  {
    assert list[i..][0] == list[i] && list[i..][1..] == list[i + 1..];
  }

  /** A purge frees as many as asked for, if there are that many, and touches
      nothing that is not removable. */
  lemma {:induction false} DropFrees<Id>(segs: map<Id, Segment>, list: seq<Id>, finished: bool, processed: bool, k: nat)
    requires Known(segs, list)
    ensures var r := Drop(segs, list, finished, processed, k); var n := Count(segs, list, finished, processed);
            && |list| - |r| == (if k < n then k else n)
            && (forall id :: id in r ==> id in list)
            && (forall id :: id in list && !Removable(segs[id], finished, processed) ==> id in r)
  {
    if list != [] {
      var head := list[0];
      DropFrees(segs, list[1..], finished, processed,
                if Removable(segs[head], finished, processed) && k > 0 then k - 1 else k);
      assert forall id :: id in list <==> id == head || id in list[1..];
    }
  }

  /** With enough removable segmenters ahead of position i, a purge leaves the
      list from there on as it is. */
  lemma {:induction false} DropStaysAhead<Id>(
    segs: map<Id, Segment>, list: seq<Id>, finished: bool, processed: bool, k: nat, i: nat)
    requires Known(segs, list) && i <= |list| && k <= Count(segs, list[..i], finished, processed)
    ensures Drop(segs, list, finished, processed, k) == Drop(segs, list[..i], finished, processed, k) + list[i..]
  {
    if i == 0 {
      DropNothing(segs, list, finished, processed);
      assert list[..0] == [] && list[0..] == list;
    } else {
      CutBehindFirst(list, i);
      if Removable(segs[list[0]], finished, processed) && k > 0 {
        DropStaysAhead(segs, list[1..], finished, processed, k - 1, i - 1);
      } else {
        DropStaysAhead(segs, list[1..], finished, processed, k, i - 1);
      }
    }
  }

  lemma CutBehindFirst<Id>(list: seq<Id>, i: nat)
    requires 0 < i <= |list|
    ensures list[..i] != [] && list[..i][0] == list[0] && list[..i][1..] == list[1..][..i - 1]
    ensures list[i..] == list[1..][i - 1..]
  {
  }

  lemma {:induction false} DropNothing<Id>(segs: map<Id, Segment>, list: seq<Id>, finished: bool, processed: bool)
    requires Known(segs, list)
    ensures Drop(segs, list, finished, processed, 0) == list
  {
    if list != [] {
      DropNothing(segs, list[1..], finished, processed);
    }
  }

  lemma {:induction false} CountAppend<Id>(segs: map<Id, Segment>, list: seq<Id>, id: Id)
    requires Known(segs, list) && id in segs
    ensures Count(segs, list + [id], true, true) == Count(segs, list, true, true) + (if segs[id].finished then 1 else 0)
  {
    if list == [] {
      assert list + [id] == [id];
    } else {
      assert (list + [id])[0] == list[0] && (list + [id])[1..] == list[1..] + [id];
      CountAppend(segs, list[1..], id);
    }
  }

  /** Asking for more than the whole list is asking for the whole list. */
  lemma {:induction false} DropAtMostAll<Id>(
    segs: map<Id, Segment>, list: seq<Id>, finished: bool, processed: bool, k: nat)
    requires Known(segs, list)
    ensures Drop(segs, list, finished, processed, if k < |list| then k else |list|)
            == Drop(segs, list, finished, processed, k)
  {
    DropBeyond(segs, list, finished, processed, k, if k < |list| then k else |list|);
  }

  lemma {:induction false} DropBeyond<Id>(
    segs: map<Id, Segment>, list: seq<Id>, finished: bool, processed: bool, k: nat, m: nat)
    requires Known(segs, list) && (k == m || (k >= |list| && m >= |list|))
    ensures Drop(segs, list, finished, processed, k) == Drop(segs, list, finished, processed, m)
  {
    if list != [] {
      if Removable(segs[list[0]], finished, processed) && k > 0 && m > 0 {
        DropBeyond(segs, list[1..], finished, processed, k - 1, m - 1);
      } else {
        DropBeyond(segs, list[1..], finished, processed, k, m);
      }
    }
  }

  /** The current segmenter of an ordered list is the unprocessed one with the
      least begin; there is none exactly when all are processed. */
  lemma CurrentIsLeast<Id>(segs: map<Id, Segment>, list: seq<Id>)
    requires Known(segs, list) && Ordered(segs, list)
    ensures var i := Leading(segs, list);
            && (i == |list| <==> forall id :: id in list ==> segs[id].processed)
            && (i < |list| ==>
                  && !segs[list[i]].processed
                  && forall id :: id in list && !segs[id].processed ==>
                                    segs[list[i]].range.begin <= segs[id].range.begin)
  {
    var i := Leading(segs, list);
    forall id | id in list && !segs[id].processed
      ensures i < |list| && segs[list[i]].range.begin <= segs[id].range.begin
    {
      var j :| 0 <= j < |list| && list[j] == id;
    }
  }

  /** Freeing half of the finished segmenters ahead of the current one takes
      exactly that many away, none of them unfinished, and none from the current
      one on. */
  lemma PurgeSparesCurrent<Id>(segs: map<Id, Segment>, list: seq<Id>)
    requires Known(segs, list)
    ensures var i := Leading(segs, list);
            var half := Count(segs, list[..i], true, true) / 2;
            var r := Drop(segs, list, true, true, half);
            && |list| - |r| == half
            && r == Drop(segs, list[..i], true, true, half) + list[i..]
            && (forall id :: id in r ==> id in list)
            && (forall id :: id in list && !segs[id].finished ==> id in r)
  {
    var i := Leading(segs, list);
    var half := Count(segs, list[..i], true, true) / 2;
    DropFrees(segs, list, true, true, half);
    DropStaysAhead(segs, list, true, true, half, i);
    DropFrees(segs, list[..i], true, true, half);
  }
}
