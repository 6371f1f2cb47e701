/** Moving the current segmenter past what processed segmenters have handled. */
module Adjusting {
  import opened Segments
  import opened Machine
  import opened Runs

  /** The segmenter starts no earlier than the position of the other one, if that
      one is processed and intersects it. */
  ghost predicate PastOf<Id>(w: World<Id>, id: Id, over: Id)
    requires id in w.segs && over in w.segs
  {
    over != id && w.segs[over].processed && w.segs[id].range.Intersects(w.segs[over].range) ==>
      w.segs[over].start <= w.segs[id].start
  }

  ghost predicate Listed<Id>(w: World<Id>) {
    w.segs.Keys == w.hist.origins.Keys == w.hist.since.Keys && forall id :: id in w.list ==> id in w.segs
  }

  /** Moves past one other segmenter; true if that ended this one. */
  ghost function AdjustTo<Id>(w: World<Id>, id: Id, over: Id): (r: (World<Id>, bool))
    requires Listed(w) && id in w.segs && over in w.segs
    ensures Listed(r.0) && r.0.list == w.list && r.0.segs.Keys == w.segs.Keys
  {
    if PastOf(w, id, over) then (w, false)
    else
      var w' := JumpWorld(w, id, over);
      if Outside(w'.segs[id]) then (SkipWorld(w', id), true) else (w', false)
  }

  /** Moves past the listed segmenters from position i on, until it ends. */
  ghost function AdjustFrom<Id>(w: World<Id>, id: Id, i: nat): (World<Id>, bool)
    requires Listed(w) && id in w.segs
    decreases |w.list| - i
  {
    if i >= |w.list| then (w, false)
    else
      var r := AdjustTo(w, id, w.list[i]);
      if r.1 then r else AdjustFrom(r.0, id, i + 1)
  }

  /** One segmenter moved forward or ended; nothing else about the others changed. */
  ghost predicate OnlyMoved<Id>(w: World<Id>, w': World<Id>, id: Id)
    requires id in w.segs
  {
    && w'.list == w.list && w'.segs.Keys == w.segs.Keys
    && (forall k :: k in w.segs && k != id ==> w'.segs[k] == w.segs[k])
    && w.segs[id].start <= w'.segs[id].start && w'.segs[id].range == w.segs[id].range
  }

  // --------------------------------------------------------- steps of the loop

  /** The loop relists, jumps and skips before it ticks. */
  predicate LoopEvent<Id>(e: Event<Id>) {
    e.Relist? || e.Jump? || e.Skip?
  }

  /** Such events lead from one state to another. */
  ghost predicate Steps<Id>(w: World<Id>, es: seq<Event<Id>>, w': World<Id>) {
    Trace(w, es, w') && forall e :: e in es ==> LoopEvent(e)
  }

  lemma StepsStart<Id>(w: World<Id>)
    requires Inv(w)
    ensures Steps(w, [], w)
  {
    TraceStart(w);
  }

  lemma StepsOne<Id>(w: World<Id>, e: Event<Id>)
    requires Inv(w) && Enabled(w, e) && LoopEvent(e)
    ensures Steps(w, [e], Apply(w, e))
  {
    TraceOne(w, e);
  }

  lemma StepsJoin<Id>(a: World<Id>, es: seq<Event<Id>>, b: World<Id>, fs: seq<Event<Id>>, c: World<Id>)
    requires Steps(a, es, b) && Steps(b, fs, c)
    ensures Steps(a, es + fs, c)
  {
    TraceJoin(a, es, b, fs, c);
  }

  lemma AdjustToReaches<Id>(w: World<Id>, id: Id, over: Id) returns (es: seq<Event<Id>>)
    requires Inv(w) && id in w.segs && over in w.segs && !w.segs[id].processed && !w.segs[id].canceled
    ensures var r := AdjustTo(w, id, over);
            && Steps(w, es, r.0) && OnlyMoved(w, r.0, id)
            && (if r.1 then r.0.segs[id].processed
                else !r.0.segs[id].processed && !r.0.segs[id].canceled && PastOf(r.0, id, over))
  {
    if PastOf(w, id, over) {
      StepsStart(w);
      es := [];
    } else {
      StepsOne(w, Jump(id, over));
      es := [Jump(id, over)];
      var w' := JumpWorld(w, id, over);
      if Outside(w'.segs[id]) {
        StepsOne(w', Skip(id));
        StepsJoin(w, es, w', [Skip(id)], SkipWorld(w', id));
        es := es + [Skip(id)];
        NotifyIsQuiet(Put(w', id, w'.segs[id].(processed := true, finished := true)), id, 100);
      }
    }
  }

  /** After a pass over the whole list, the segmenter has either ended or starts no
      earlier than any processed segmenter it intersects; both are reached by
      events of the machine. */
  lemma {:induction false} AdjustFromReaches<Id>(w: World<Id>, id: Id, i: nat) returns (es: seq<Event<Id>>)
    requires Inv(w) && id in w.segs && !w.segs[id].processed && !w.segs[id].canceled
    ensures var r := AdjustFrom(w, id, i);
            && Steps(w, es, r.0) && OnlyMoved(w, r.0, id)
            && (if r.1 then r.0.segs[id].processed
                else && !r.0.segs[id].processed && !r.0.segs[id].canceled
                     && forall j :: i <= j < |w.list| ==> PastOf(r.0, id, w.list[j]))
    decreases |w.list| - i
  {
    if i >= |w.list| {
      StepsStart(w);
      es := [];
    } else {
      var over := w.list[i];
      es := AdjustToReaches(w, id, over);
      var (w1, ended) := AdjustTo(w, id, over);
      if !ended {
        var fs := AdjustFromReaches(w1, id, i + 1);
        var (w2, again) := AdjustFrom(w1, id, i + 1);
        StepsJoin(w, es, w1, fs, w2);
        es := es + fs;
        OnlyMovedTwice(w, w1, w2, id, over);
      }
    }
  }

  lemma OnlyMovedTwice<Id>(w: World<Id>, w1: World<Id>, w2: World<Id>, id: Id, over: Id)
    requires id in w.segs && over in w.segs
    requires OnlyMoved(w, w1, id) && OnlyMoved(w1, w2, id) && PastOf(w1, id, over)
    ensures OnlyMoved(w, w2, id) && PastOf(w2, id, over)
  {
  }

  ghost function Unprocessed<Id>(w: World<Id>): set<Id> {
    set id | id in w.list && id in w.segs && !w.segs[id].processed
  }

  /** A pass that ends its segmenter leaves fewer unprocessed ones, so passes can
      be repeated only that often. */
  lemma EndingShrinks<Id>(w: World<Id>, w1: World<Id>, w2: World<Id>, id: Id)
    requires Listed(w) && w1.segs == w.segs && forall k :: k in w1.list ==> k in w.list
    requires id in w1.list && id in w1.segs && !w1.segs[id].processed && OnlyMoved(w1, w2, id)
    ensures w2.segs[id].processed ==> Unprocessed(w2) < Unprocessed(w)
    ensures Unprocessed(w2) <= Unprocessed(w)
  {
    assert id in Unprocessed(w);
    forall k | k in Unprocessed(w2)
      ensures k in Unprocessed(w)
    {
      assert k in w2.list && k in w1.list;
    }
  }

  ghost predicate Waiting<Id>(w: World<Id>, id: Id) {
    id in w.list && id in w.segs && !w.segs[id].processed && !w.segs[id].canceled
  }

  /** No listed segmenter that waits to be processed begins earlier. */
  ghost predicate Least<Id>(w: World<Id>, id: Id) {
    && Waiting(w, id)
    && forall k :: k in w.list && Waiting(w, k) ==> w.segs[id].range.begin <= w.segs[k].range.begin
  }

  /** The current segmenter is settled: it is the least of those that wait, and
      past everything the processed segmenters it intersects have handled. */
  ghost predicate Settled<Id>(w: World<Id>, id: Id) {
    && Least(w, id)
    && forall r :: r in w.list ==> r in w.segs && PastOf(w, id, r)
  }

  lemma RelistReaches<Id>(w: World<Id>, kept: seq<Id>)
    requires Inv(w) && forall id :: id in kept ==> id in w.list
    ensures Steps(w, [Relist(kept)], w.(list := kept)) && Unprocessed(w.(list := kept)) <= Unprocessed(w)
  {
    StepsOne(w, Relist(kept));
  }

  /** The events lead to the state; the segmenter either ended, with fewer left to
      process, or is settled. */
  ghost predicate PassDone<Id>(w: World<Id>, es: seq<Event<Id>>, r: (World<Id>, bool), id: Id) {
    && Steps(w, es, r.0) && Unprocessed(r.0) <= Unprocessed(w)
    && (if r.1 then Unprocessed(r.0) < Unprocessed(w) else Settled(r.0, id))
  }

  /** A relisting and a pass for one of its segmenters: either the segmenter ended
      and fewer are left to process, or it is settled. */
  lemma PassReaches<Id>(w: World<Id>, kept: seq<Id>, id: Id) returns (es: seq<Event<Id>>)
    requires Inv(w) && forall k :: k in kept ==> k in w.list
    requires Least(w.(list := kept), id)
    ensures Listed(w.(list := kept))
    ensures PassDone(w, es, AdjustFrom(w.(list := kept), id, 0), id)
  {
    var w1 := w.(list := kept);
    RelistReaches(w, kept);
    var fs := AdjustFromReaches(w1, id, 0);
    var (w2, again) := AdjustFrom(w1, id, 0);
    StepsJoin(w, [Relist(kept)], w1, fs, w2);
    es := [Relist(kept)] + fs;
    EndingShrinks(w, w1, w2, id);
    if !again {
      PastAll(w2, id);
    }
  }

  lemma PastAll<Id>(w: World<Id>, id: Id)
    requires id in w.segs
    requires forall j :: 0 <= j < |w.list| ==> w.list[j] in w.segs && PastOf(w, id, w.list[j])
    ensures forall r :: r in w.list ==> r in w.segs && PastOf(w, id, r)
  {
    forall r | r in w.list
      ensures r in w.segs && PastOf(w, id, r)
    {
      var j :| 0 <= j < |w.list| && w.list[j] == r;
    }
  }

  /** A tick on a settled segmenter plans nothing that overlaps a clip of a listed
      processed segmenter it intersects. */
  lemma SettledTickAvoidsProcessed<Id>(w: World<Id>, e: Event<Id>, other: Id)
    requires Inv(w) && Enabled(w, e) && e.Tick? && Settled(w, e.id)
    requires other in w.list && other != e.id && w.segs[other].processed
    requires w.segs[e.id].range.Intersects(w.segs[other].range)
    ensures var ps := Apply(w, e).hist.plans;
            forall i, j :: 0 <= i < |w.hist.plans| <= j < |ps| && ps[i].id == other ==>
                             ps[i].clip.stop <= ps[j].clip.start
  {
    assert PastOf(w, e.id, other);
    TickAvoidsOthers(w, e, other);
  }

  ghost predicate AllDone<Id>(w: World<Id>) {
    forall id :: id in w.list ==> !Waiting(w, id)
  }

  /** No other waiting segmenter has the same begin. */
  ghost predicate BeginsAlone<Id>(w: World<Id>, id: Id) {
    id in w.segs &&
    forall k :: k in w.list && k != id && Waiting(w, k) ==> w.segs[k].range.begin != w.segs[id].range.begin
  }

  /** Starts before the position of a processed segmenter it intersects. */
  ghost predicate BehindOf<Id>(w: World<Id>, id: Id, r: Id)
    requires id in w.segs && r in w.segs
  {
    && r != id && w.segs[r].processed && w.segs[id].range.Intersects(w.segs[r].range)
    && w.segs[id].start < w.segs[r].start
  }

  /** What may be chosen although it is not settled: another waiting segmenter than
      the one adjusted, with the same begin, that starts before the position of a
      kept processed segmenter it intersects. */
  ghost predicate ChosenUnsettled<Id>(w: World<Id>, kept: seq<Id>, adjusted: Id, id: Id)
    requires adjusted in w.segs && forall k :: k in kept ==> k in w.segs
  {
    && id in kept && Waiting(w, id) && id != adjusted && w.segs[id].range.begin == w.segs[adjusted].range.begin
    && exists r :: r in kept && BehindOf(w, id, r)
  }

  /** The loop adjusts one segmenter and then chooses again, from a list that may be
      arranged differently and has lost only finished and canceled ones. It can end up
      with exactly those that are chosen unsettled; a segmenter whose begin is its own
      is never one of them. */
  lemma ChosenUnsettledIff<Id>(w: World<Id>, kept: seq<Id>, adjusted: Id, id: Id)
    requires Inv(w) && Settled(w, adjusted) && (forall k :: k in kept ==> k in w.list)
    requires forall k :: k in w.list && Waiting(w, k) ==> k in kept
    ensures Least(w.(list := kept), id) && !Settled(w.(list := kept), id) <==> ChosenUnsettled(w, kept, adjusted, id)
    ensures ChosenUnsettled(w, kept, adjusted, id) ==> !BeginsAlone(w.(list := kept), id)
  {
    var w' := w.(list := kept);
    assert Waiting(w, adjusted) && adjusted in kept && Waiting(w', adjusted);
    if ChosenUnsettled(w, kept, adjusted, id) {
      forall k | k in kept && Waiting(w', k)
        ensures w.segs[id].range.begin <= w.segs[k].range.begin
      {
        assert Waiting(w, k);
      }
    } else if Least(w', id) {
      forall r | r in kept
        ensures r in w.segs && PastOf(w', id, r)
      {
        assert PastOf(w, adjusted, r);
        assert r in w.segs && !(BehindOf(w, id, r) && id != adjusted);
      }
    }
  }
}
