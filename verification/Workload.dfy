/** How much work the segmenters have left, and that the loop comes to an end of it. */
module Workload {
  import opened Periods
  import opened Segments
  import opened Machine
  import opened Runs
  import opened Adjusting

  // ------------------------------------------------------------ work left

  /** How many ticks a segmenter can still take. */
  function Left(x: Segment): nat {
    if x.processed || x.canceled then 0 else TicksLeft(x)
  }

  ghost function Work<Id>(segs: map<Id, Segment>): nat
    decreases |segs|
  {
    if segs == map[] then 0
    else
      var id :| id in segs;
      Left(segs[id]) + Work(segs - {id})
  }

  lemma {:induction false} WorkAt<Id>(segs: map<Id, Segment>, id: Id)
    requires id in segs
    ensures Work(segs) == Left(segs[id]) + Work(segs - {id})
    decreases |segs|
  {
    var k :| k in segs && Work(segs) == Left(segs[k]) + Work(segs - {k});
    if k != id {
      WorkAt(segs - {k}, id);
      WorkAt(segs - {id}, k);
      assert segs - {k} - {id} == segs - {id} - {k};
    }
  }

  lemma WorkAfterPut<Id>(segs: map<Id, Segment>, id: Id, x: Segment)
    requires id in segs
    ensures Work(segs[id := x]) == Work(segs) - Left(segs[id]) + Left(x)
  {
    WorkAt(segs, id);
    WorkAt(segs[id := x], id);
    assert segs[id := x] - {id} == segs - {id};
  }

  lemma {:induction false} WorkShrinks<Id>(segs: map<Id, Segment>, segs': map<Id, Segment>)
    requires segs.Keys == segs'.Keys && forall id :: id in segs ==> Left(segs'[id]) <= Left(segs[id])
    ensures Work(segs') <= Work(segs)
    decreases |segs|
  {
    if segs == map[] {
      assert segs' == map[];
    } else {
      var id :| id in segs;
      WorkAt(segs, id);
      WorkAt(segs', id);
      WorkShrinks(segs - {id}, segs' - {id});
    }
  }

  // -------------------------------------------------------------- over runs

  /** Every segmenter still to be processed has its end set. */
  ghost predicate AllClosed<Id>(w: World<Id>) {
    forall id :: id in w.segs && !w.segs[id].processed && !w.segs[id].canceled ==> !w.segs[id].IsOpen()
  }

  /** Nothing new to do comes in. */
  predicate BringsNoWork<Id>(e: Event<Id>) {
    !e.Enqueue? && !e.Redirect? && !e.Finalize?
  }

  ghost predicate Stalled<Id>(w: World<Id>, e: Event<Id>)
    requires Enabled(w, e)
  {
    e.Tick? && Stalls(w.segs[e.id], e.slices, e.clips)
  }

  lemma QuietKeepsWork<Id>(w: World<Id>, w': World<Id>)
    requires Quiet(w, w') && AllClosed(w)
    ensures AllClosed(w') && Work(w'.segs) <= Work(w.segs)
  {
    forall id | id in w.segs
      ensures Left(w'.segs[id]) <= Left(w.segs[id])
    {
      assert Advances(w.segs[id], w'.segs[id]);
    }
    WorkShrinks(w.segs, w'.segs);
  }

  lemma JumpKeepsWork<Id>(w: World<Id>, e: Event<Id>)
    requires Inv(w) && Enabled(w, e) && e.Jump? && AllClosed(w)
    ensures AllClosed(Apply(w, e)) && Work(Apply(w, e).segs) <= Work(w.segs)
  {
    assert SegmentInv(w.segs[e.id], w.hist.origins[e.id]);
    WorkAfterPut(w.segs, e.id, Apply(w, e).segs[e.id]);
  }

  lemma LeftAfterTick(x: Segment, slices: seq<Period>, clips: seq<Clip>, y: Segment)
    requires Tickable(x) && !x.IsOpen() && TickContract(x, slices, clips)
    requires var r := TickSegment(x, slices, clips).seg;
             y.start == r.start && y.stop == r.stop && y.range == r.range && y.processed == r.processed
    ensures y.range == x.range && Left(y) + (if Stalls(x, slices, clips) then 0 else 1) <= Left(x)
  {
    TickProgressIff(x, slices, clips);
    TickKeepsRest(x, slices, clips);
  }

  lemma TickTakesWork<Id>(w: World<Id>, e: Event<Id>)
    requires Inv(w) && Enabled(w, e) && e.Tick? && AllClosed(w)
    ensures AllClosed(Apply(w, e))
    ensures Work(Apply(w, e).segs) + (if Stalled(w, e) then 0 else 1) <= Work(w.segs)
  {
    var w', x := Apply(w, e), w.segs[e.id];
    assert SegmentInv(x, w.hist.origins[e.id]);
    TickEffect(w, e);
    LeftAfterTick(x, e.slices, e.clips, w'.segs[e.id]);
    assert w'.segs == w.segs[e.id := w'.segs[e.id]];
    WorkAfterPut(w.segs, e.id, w'.segs[e.id]);
  }

  /** Without new work coming in, no event adds to what is left, and every tick that does
      not stall takes from it. */
  lemma EventTakesWork<Id>(w: World<Id>, e: Event<Id>)
    requires Inv(w) && Enabled(w, e) && AllClosed(w) && BringsNoWork(e)
    ensures AllClosed(Apply(w, e))
    ensures Work(Apply(w, e).segs) + (if e.Tick? && !Stalled(w, e) then 1 else 0) <= Work(w.segs)
  {
    if e.Tick? {
      TickTakesWork(w, e);
    } else if e.Jump? {
      JumpKeepsWork(w, e);
    } else {
      QuietEvents(w, e);
      QuietKeepsWork(w, Apply(w, e));
    }
  }

  /** One turn of the loop: what it does ahead of its tick, and the tick, if any. */
  lemma TurnTakesWork<Id>(w: World<Id>, es: seq<Event<Id>>, w': World<Id>, tick: seq<Event<Id>>)
    requires Steps(w, es, w') && AllClosed(w)
    requires |tick| <= 1 && forall e :: e in tick ==> e.Tick? && Enabled(w', e) && !Stalled(w', e)
    ensures var w'' := if tick == [] then w' else Apply(w', tick[0]);
            AllClosed(w'') && Work(w''.segs) + |tick| <= Work(w.segs)
  {
    forall e | e in es
      ensures BringsNoWork(e)
    {
      assert LoopEvent(e);
    }
    TicksAreBounded(w, es);
    if tick != [] {
      assert tick[0] in tick;
      EventTakesWork(w', tick[0]);
    }
  }

  /** How many ticks of the run do not stall. */
  ghost function MovingTicks<Id>(w: World<Id>, es: seq<Event<Id>>): nat
    requires Possible(w, es)
    decreases |es|
  {
    if es == [] then 0
    else (if es[0].Tick? && !Stalled(w, es[0]) then 1 else 0) + MovingTicks(Apply(w, es[0]), es[1..])
  }

  /** Over every run in which nothing new comes in, whatever is canceled or reported on
      the way, there are no more ticks than the work left at its beginning, the stalled
      ones not counted. */
  lemma {:induction false} TicksAreBounded<Id>(w: World<Id>, es: seq<Event<Id>>)
    requires Possible(w, es) && AllClosed(w) && forall e :: e in es ==> BringsNoWork(e)
    ensures AllClosed(Replay(w, es)) && MovingTicks(w, es) + Work(Replay(w, es).segs) <= Work(w.segs)
    decreases |es|
  {
    if es != [] {
      assert es[0] in es;
      EventTakesWork(w, es[0]);
      TicksAreBounded(Apply(w, es[0]), es[1..]);
    }
  }
}
