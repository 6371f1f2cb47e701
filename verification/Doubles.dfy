/** Instants planned more than once: which ticks may do that, and what holds over every
    run without them. */
module Doubles {
  import opened Periods
  import opened Segments
  import opened Machine
  import opened Runs
  import opened Adjusting

  /** The clips have an instant in common. */
  predicate Shares(a: Clip, b: Clip) {
    (if a.start < b.start then b.start else a.start) < (if a.stop < b.stop then a.stop else b.stop)
  }

  lemma SharesIff(a: Clip, b: Clip)
    ensures Shares(a, b) <==> exists t :: a.Covers(t) && b.Covers(t)
  {
    var t := if a.start < b.start then b.start else a.start;
    assert Shares(a, b) ==> a.Covers(t) && b.Covers(t);
  }

  /** The tick asks the recorder for clips. */
  predicate Asks(x: Segment, slices: seq<Period>) {
    CheckWindow(x, slices).upload && Queries(Checked(x, slices))
  }

  /** What it asks for. */
  function Window(x: Segment, slices: seq<Period>): Clip {
    var y := Checked(x, slices);
    Clip(y.start, Clamp(y).stop)
  }

  /** What a tick plans lies in the window it asked for; and the whole window is among
      what the recorder may answer. */
  lemma PlansWithinWindow(x: Segment, slices: seq<Period>, clips: seq<Clip>)
    requires Tickable(x) && TickContract(x, slices, clips)
    ensures forall c :: c in TickSegment(x, slices, clips).plans ==>
                          Asks(x, slices) && Window(x, slices).start <= c.start <= c.stop <= Window(x, slices).stop
  {
    CheckIsExact(x, slices);
  }

  lemma WindowMayBePlanned(x: Segment, slices: seq<Period>)
    requires Tickable(x) && CloudList(slices) && Asks(x, slices) && Window(x, slices).start < Window(x, slices).stop
    ensures var clips := [Window(x, slices)];
            TickContract(x, slices, clips) && TickSegment(x, slices, clips).plans == clips
  {
    CheckIsExact(x, slices);
  }

  /** Some answer within the recorder's contract makes the tick plan this clip or a part
      of it again. */
  ghost predicate MayPlanAgain(x: Segment, slices: seq<Period>, clip: Clip) {
    exists clips :: TickContract(x, slices, clips) && PlansPartOf(x, slices, clips, clip)
  }

  predicate PlansPartOf(x: Segment, slices: seq<Period>, clips: seq<Clip>, clip: Clip) {
    exists c :: c in TickSegment(x, slices, clips).plans && Shares(c, clip)
  }

  /** That is so exactly if the tick asks the recorder and the clip has an instant in
      common with the window asked for. */
  lemma MayPlanAgainIff(x: Segment, slices: seq<Period>, clip: Clip)
    requires Tickable(x) && CloudList(slices)
    ensures MayPlanAgain(x, slices, clip) <==> Asks(x, slices) && Shares(Window(x, slices), clip)
  {
    forall clips | TickContract(x, slices, clips) && PlansPartOf(x, slices, clips, clip)
      ensures Asks(x, slices) && Shares(Window(x, slices), clip)
    {
      PlansWithinWindow(x, slices, clips);
    }
    if Asks(x, slices) && Shares(Window(x, slices), clip) {
      var clips := [Window(x, slices)];
      WindowMayBePlanned(x, slices);
      assert clips[0] in TickSegment(x, slices, clips).plans;
      assert PlansPartOf(x, slices, clips, clip);
    }
  }

  // ------------------------------------------------------------ over runs

  /** No instant is planned twice, by whomever. */
  ghost predicate Exclusive<Id>(plans: seq<Plan<Id>>) {
    forall i, j :: 0 <= i < j < |plans| ==> !Shares(plans[i].clip, plans[j].clip)
  }

  /** The tick asks for a window in which something is planned already. */
  ghost predicate Revisits<Id>(w: World<Id>, id: Id, slices: seq<Period>)
    requires id in w.segs
  {
    && Asks(w.segs[id], slices)
    && exists i :: 0 <= i < |w.hist.plans| && Shares(Window(w.segs[id], slices), w.hist.plans[i].clip)
  }

  /** What is planned there is planned by another segmenter. */
  lemma RevisitsOthers<Id>(w: World<Id>, id: Id, slices: seq<Period>, i: nat)
    requires Inv(w) && id in w.segs && !w.segs[id].processed && !w.segs[id].canceled && CloudList(slices)
    requires Asks(w.segs[id], slices) && i < |w.hist.plans|
    requires Shares(Window(w.segs[id], slices), w.hist.plans[i].clip)
    ensures w.hist.plans[i].id != id
  {
    assert SegmentInv(w.segs[id], w.hist.origins[id]) && PlanInv(w, w.hist.plans[i]);
    CheckIsExact(w.segs[id], slices);
  }

  /** When a settled segmenter is ticked, that other one is still unprocessed, has left
      the list, or is not seen to intersect. */
  lemma SettledRevisits<Id>(w: World<Id>, id: Id, slices: seq<Period>, i: nat)
    requires Inv(w) && Settled(w, id) && CloudList(slices)
    requires Asks(w.segs[id], slices) && i < |w.hist.plans|
    requires Shares(Window(w.segs[id], slices), w.hist.plans[i].clip)
    ensures var other := w.hist.plans[i].id;
            && other != id && other in w.segs
            && (w.segs[other].processed && other in w.list ==> !w.segs[id].range.Intersects(w.segs[other].range))
  {
    RevisitsOthers(w, id, slices, i);
    assert SegmentInv(w.segs[id], w.hist.origins[id]) && PlanInv(w, w.hist.plans[i]);
    CheckIsExact(w.segs[id], slices);
    if w.hist.plans[i].id in w.list {
      assert PastOf(w, id, w.hist.plans[i].id);
    }
  }

  /** Some answer within the recorder's contract makes the tick plan an instant again. */
  ghost predicate MayDouble<Id>(w: World<Id>, id: Id, slices: seq<Period>)
    requires Inv(w)
  {
    exists clips: seq<Clip> ::
      Enabled(w, Tick(id, slices, clips)) && !Exclusive(Apply(w, Tick(id, slices, clips)).hist.plans)
  }

  lemma TickKeepsExclusive<Id>(w: World<Id>, e: Event<Id>)
    requires Inv(w) && Enabled(w, e) && e.Tick? && Exclusive(w.hist.plans)
    requires forall c, i :: c in TickSegment(w.segs[e.id], e.slices, e.clips).plans && 0 <= i < |w.hist.plans| ==>
                              !Shares(c, w.hist.plans[i].clip)
    ensures Exclusive(Apply(w, e).hist.plans)
  {
    TickEffect(w, e);
    assert SegmentInv(w.segs[e.id], w.hist.origins[e.id]);
    TickKeeps(w.segs[e.id], e.slices, e.clips);
    AppendKeepsExclusive(w.hist.plans, e.id, TickSegment(w.segs[e.id], e.slices, e.clips).plans);
  }

  lemma AppendKeepsExclusive<Id>(plans: seq<Plan<Id>>, id: Id, clips: seq<Clip>)
    requires Exclusive(plans) && |clips| <= 1
    requires forall c, i :: c in clips && 0 <= i < |plans| ==> !Shares(c, plans[i].clip)
    ensures Exclusive(plans + PlansOf(id, clips))
  {
    var ps := plans + PlansOf(id, clips);
    forall i, j | 0 <= i < j < |ps|
      ensures !Shares(ps[i].clip, ps[j].clip)
    {
      if j >= |plans| {
        assert ps[j].clip in clips;
      }
    }
  }

  lemma RevisitMayDouble<Id>(w: World<Id>, id: Id, slices: seq<Period>)
    requires Inv(w) && id in w.segs && !w.segs[id].processed && !w.segs[id].canceled && CloudList(slices)
    requires Revisits(w, id, slices)
    ensures MayDouble(w, id, slices)
  {
    var x, c := w.segs[id], Window(w.segs[id], slices);
    assert SegmentInv(x, w.hist.origins[id]);
    var i :| 0 <= i < |w.hist.plans| && Shares(c, w.hist.plans[i].clip);
    WindowMayBePlanned(x, slices);
    var e := Event<Id>.Tick(id, slices, [c]);
    TickEffect(w, e);
    var ps := Apply(w, e).hist.plans;
    assert ps[i] == w.hist.plans[i] && ps[|w.hist.plans|].clip == c;
    assert !Exclusive(ps);
  }

  /** As long as nothing is planned twice, a tick may plan an instant again exactly if it
      asks for a window in which something is planned already. */
  lemma MayDoubleIff<Id>(w: World<Id>, id: Id, slices: seq<Period>)
    requires Inv(w) && id in w.segs && !w.segs[id].processed && !w.segs[id].canceled && CloudList(slices)
    requires Exclusive(w.hist.plans)
    ensures MayDouble(w, id, slices) <==> Revisits(w, id, slices)
  {
    if Revisits(w, id, slices) {
      RevisitMayDouble(w, id, slices);
    } else {
      forall clips: seq<Clip> | Enabled(w, Tick(id, slices, clips))
        ensures Exclusive(Apply(w, Tick(id, slices, clips)).hist.plans)
      {
        StaysExclusive(w, Tick(id, slices, clips));
      }
    }
  }

  lemma StaysExclusive<Id>(w: World<Id>, e: Event<Id>)
    requires Inv(w) && Enabled(w, e) && Exclusive(w.hist.plans)
    requires e.Tick? ==> !Revisits(w, e.id, e.slices)
    ensures Exclusive(Apply(w, e).hist.plans)
  {
    if e.Tick? {
      assert SegmentInv(w.segs[e.id], w.hist.origins[e.id]);
      PlansWithinWindow(w.segs[e.id], e.slices, e.clips);
      TickKeepsExclusive(w, e);
    } else if QuietEvent(e) {
      QuietEvents(w, e);
    }
  }

  ghost predicate NeverRevisits<Id>(w: World<Id>, es: seq<Event<Id>>)
    requires Possible(w, es)
    decreases |es|
  {
    es == [] ||
    ((es[0].Tick? ==> !Revisits(w, es[0].id, es[0].slices)) && NeverRevisits(Apply(w, es[0]), es[1..]))
  }

  /** Over every run in which no tick asks for a window in which something is planned
      already, no instant is planned twice. */
  lemma {:induction false} ExclusiveRun<Id>(w: World<Id>, es: seq<Event<Id>>)
    requires Possible(w, es) && NeverRevisits(w, es) && Exclusive(w.hist.plans)
    ensures Exclusive(Replay(w, es).hist.plans)
    decreases |es|
  {
    if es != [] {
      StaysExclusive(w, es[0]);
      ExclusiveRun(Apply(w, es[0]), es[1..]);
    }
  }
}
