/** What holds over every run of the uploader, whatever order its callbacks come
    in and whatever the cloud and the recorder answer. */
module Runs {
  import opened Periods
  import opened Segments
  import opened Machine

  // ------------------------------------------------------------------- runs

  ghost predicate Possible<Id>(w: World<Id>, es: seq<Event<Id>>)
    decreases |es|
  {
    && Inv(w)
    && (es != [] ==> Enabled(w, es[0]) && Possible(Apply(w, es[0]), es[1..]))
  }

  ghost function Replay<Id>(w: World<Id>, es: seq<Event<Id>>): World<Id>
    requires Possible(w, es)
    decreases |es|
  {
    if es == [] then w else Replay(Apply(w, es[0]), es[1..])
  }

  /** Nothing scheduled, nothing reported. */
  ghost function Start<Id>(): World<Id> {
    World(map[], [], [], History(map[], map[], [], [], [], [], {}))
  }

  lemma {:induction false} ReplayKeepsInv<Id>(w: World<Id>, es: seq<Event<Id>>)
    requires Possible(w, es)
    ensures Inv(Replay(w, es))
    decreases |es|
  {
    if es != [] {
      ReplayKeepsInv(Apply(w, es[0]), es[1..]);
    }
  }

  lemma {:induction false} ReplayConcat<Id>(w: World<Id>, es: seq<Event<Id>>, fs: seq<Event<Id>>)
    requires Possible(w, es) && Possible(Replay(w, es), fs)
    ensures Possible(w, es + fs) && Replay(w, es + fs) == Replay(Replay(w, es), fs)
    decreases |es|
  {
    if es == [] {
      assert es + fs == fs;
    } else {
      assert (es + fs)[0] == es[0] && (es + fs)[1..] == es[1..] + fs;
      ReplayConcat(Apply(w, es[0]), es[1..], fs);
    }
  }

  /** The events es lead from one state to another. */
  ghost predicate Trace<Id>(w: World<Id>, es: seq<Event<Id>>, w': World<Id>) {
    Possible(w, es) && Replay(w, es) == w' && Inv(w')
  }

  lemma TraceStart<Id>(w: World<Id>)
    requires Inv(w)
    ensures Trace(w, [], w)
  {
  }

  lemma TraceJoin<Id>(a: World<Id>, es: seq<Event<Id>>, b: World<Id>, fs: seq<Event<Id>>, c: World<Id>)
    requires Trace(a, es, b) && Trace(b, fs, c)
    ensures Trace(a, es + fs, c)
  {
    ReplayConcat(a, es, fs);
  }

  lemma TraceOne<Id>(w: World<Id>, e: Event<Id>)
    requires Inv(w) && Enabled(w, e)
    ensures Trace(w, [e], Apply(w, e))
  {
    ApplyKeepsInv(w, e);
    assert [e][1..] == [];
    assert Possible(Apply(w, e), []);
  }

  lemma TraceRelist<Id>(w: World<Id>, list: seq<Id>)
    requires Inv(w) && forall id :: id in list ==> id in w.segs
    ensures Trace(w, [Relist(list)], w.(list := list))
  {
    TraceOne(w, Relist(list));
  }

  lemma TraceStep<Id>(a: World<Id>, es: seq<Event<Id>>, b: World<Id>, e: Event<Id>)
    requires Trace(a, es, b) && Enabled(b, e)
    ensures Trace(a, es + [e], Apply(b, e))
  {
    TraceOne(b, e);
    TraceJoin(a, es, b, [e], Apply(b, e));
  }

  // ------------------------------------------------------------ monotonicity

  /** From an earlier state to a later one, processed segmenters plan nothing more,
      cancellations and cleared tickets stay, and history only grows. */
  ghost predicate Later<Id>(w: World<Id>, w': World<Id>) {
    && w.segs.Keys <= w'.segs.Keys && w.hist.origins.Keys <= w'.hist.origins.Keys
    && (forall id :: id in w.segs ==> Evolves(w.segs[id], w'.segs[id]))
    && (forall id :: id in w.hist.origins ==> w'.hist.origins[id] <= w.hist.origins[id])
    && SinceEarlier(w, w')
    && w.hist.plans <= w'.hist.plans && w.hist.reports <= w'.hist.reports
    && w.hist.cloud <= w'.hist.cloud && w.hist.gaps <= w'.hist.gaps && w.hist.debts <= w'.hist.debts
  }

  /** No segmenter is asked to cover less than what it was asked to when it entered. */
  ghost predicate SinceEarlier<Id>(w: World<Id>, w': World<Id>) {
    forall id :: id in w.hist.since ==> id in w'.hist.since && w'.hist.since[id] <= w.hist.since[id]
  }

  lemma LaterTransitive<Id>(a: World<Id>, b: World<Id>, c: World<Id>)
    requires Later(a, b) && Later(b, c)
    ensures Later(a, c)
  {
    forall id | id in a.segs
      ensures id in c.segs && Evolves(a.segs[id], c.segs[id])
    {
      assert Evolves(a.segs[id], b.segs[id]) && Evolves(b.segs[id], c.segs[id]);
    }
  }

  /** Nothing moved, nothing was planned: only flags, tickets and reports changed. */
  ghost predicate Quiet<Id>(w: World<Id>, w': World<Id>) {
    && w'.segs.Keys == w.segs.Keys
    && (forall id :: id in w.segs ==>
          Advances(w.segs[id], w'.segs[id]) && w'.segs[id].start == w.segs[id].start
          && w'.segs[id].stop == w.segs[id].stop && w'.segs[id].range == w.segs[id].range)
    && w'.hist == w.hist.(reports := w'.hist.reports) && w.hist.reports <= w'.hist.reports
  }

  lemma NotifyIsQuiet<Id>(w: World<Id>, id: Id, progress: nat)
    requires id in w.segs
    ensures Quiet(w, Notify(w, id, progress))
    ensures var w' := Notify(w, id, progress);
            && w'.list == w.list
            && forall k :: k in w.segs && k != id ==> w'.segs[k] == w.segs[k]
    ensures Notify(w, id, progress).segs[id].processed == w.segs[id].processed
  {
    StatusFacts(w.segs[id], w.tickets, progress);
  }

  /** Cancelling changes no segmenter without marking it canceled. */
  lemma CancelOneIsQuiet<Id>(w: World<Id>, id: Id)
    requires id in w.segs
    ensures var w' := CancelOne(w, id);
            && Quiet(w, w') && w'.list == w.list && w'.segs[id].canceled
            && forall k :: k in w.segs ==> w'.segs[k] == w.segs[k] || w'.segs[k].canceled
  {
    var x := w.segs[id].(canceled := true, finished := true, processed := true);
    StatusFacts(x, w.tickets, 100);
    NotifyIsQuiet(Put(w, id, x), id, 100);
  }

  lemma {:induction false} CancelFromIsQuiet<Id>(w: World<Id>, ticket: string, i: nat)
    requires forall id :: id in w.list ==> id in w.segs
    ensures var w' := CancelFrom(w, ticket, i);
            && Quiet(w, w')
            && forall k :: k in w.segs ==> w'.segs[k] == w.segs[k] || w'.segs[k].canceled
    decreases |w.list| - i
  {
    if i < |w.list| {
      if Cancels(w, w.list[i], ticket) {
        var w1 := CancelOne(w, w.list[i]);
        CancelOneIsQuiet(w, w.list[i]);
        CancelFromIsQuiet(w1, ticket, i + 1);
        QuietTransitive(w, w1, CancelFrom(w1, ticket, i + 1));
      } else {
        CancelFromIsQuiet(w, ticket, i + 1);
      }
    }
  }

  lemma {:induction false} CancelSkips<Id>(w: World<Id>, ticket: string, i: nat, k: nat)
    requires forall id :: id in w.list ==> id in w.segs
    requires i <= k <= |w.list| && forall j :: i <= j < k ==> !Cancels(w, w.list[j], ticket)
    ensures CancelFrom(w, ticket, i) == CancelFrom(w, ticket, k)
    decreases k - i
  {
    if i < k {
      CancelSkips(w, ticket, i + 1, k);
    }
  }

  /** Cancelling the segmenter at position k leaves nothing to cancel up to there. */
  lemma CancelAt<Id>(w: World<Id>, ticket: string, k: nat)
    requires forall id :: id in w.list ==> id in w.segs
    requires k < |w.list| && Cancels(w, w.list[k], ticket)
    requires forall i :: 0 <= i < k ==> !Cancels(w, w.list[i], ticket)
    ensures var w1 := CancelOne(w, w.list[k]);
            && w1.list == w.list && w1.segs.Keys == w.segs.Keys
            && (forall i :: 0 <= i <= k ==> !Cancels(w1, w.list[i], ticket))
            && CancelFrom(w1, ticket, k + 1) == CancelFrom(w, ticket, k)
  {
    CancelOneIsQuiet(w, w.list[k]);
    var w1 := CancelOne(w, w.list[k]);
    forall i | 0 <= i <= k
      ensures !Cancels(w1, w.list[i], ticket)
    {
      assert i < k ==> !Cancels(w, w.list[i], ticket);
    }
  }

  lemma QuietTransitive<Id>(a: World<Id>, b: World<Id>, c: World<Id>)
    requires Quiet(a, b) && Quiet(b, c)
    ensures Quiet(a, c)
  {
    forall id | id in a.segs
      ensures Advances(a.segs[id], c.segs[id]) && c.segs[id].start == a.segs[id].start
              && c.segs[id].stop == a.segs[id].stop && c.segs[id].range == a.segs[id].range
    {
      assert Advances(a.segs[id], b.segs[id]) && Advances(b.segs[id], c.segs[id]);
    }
  }

  lemma QuietEvents<Id>(w: World<Id>, e: Event<Id>)
    requires Inv(w) && Enabled(w, e)
    requires QuietEvent(e)
    ensures Quiet(w, Apply(w, e))
  {
    match e
    case Cancel(ticket) =>
      if ticket != "" {
        CancelFromIsQuiet(w, ticket, 0);
      }
    case Finished(id, ok) => FinishedIsQuiet(w, id, ok);
    case Skip(id) => SkipIsQuiet(w, id);
    case Relist(_) =>
  }

  lemma FinishedIsQuiet<Id>(w: World<Id>, id: Id, ok: bool)
    requires id in w.segs && w.segs[id].planned > 0
    ensures Quiet(w, Absorb(w, id, UploadFinished(w.segs[id], w.tickets, ok)))
  {
    StatusFacts(Counted(w.segs[id], ok), w.tickets, Progress(Counted(w.segs[id], ok)));
  }

  lemma SkipIsQuiet<Id>(w: World<Id>, id: Id)
    requires id in w.segs && !w.segs[id].processed
    ensures Quiet(w, SkipWorld(w, id))
  {
    var w1 := Put(w, id, w.segs[id].(processed := true, finished := true));
    NotifyIsQuiet(w1, id, 100);
    assert Quiet(w, w1);
    QuietTransitive(w, w1, SkipWorld(w, id));
  }

  /** A tick moves one segmenter forward and adds to the history. */
  lemma TickEffect<Id>(w: World<Id>, e: Event<Id>)
    requires Inv(w) && Enabled(w, e) && e.Tick?
    ensures var w' := Apply(w, e); var r := TickSegment(w.segs[e.id], e.slices, e.clips);
            && w'.segs.Keys == w.segs.Keys && w'.hist.origins == w.hist.origins && w'.hist.since == w.hist.since
            && (forall k :: k in w.segs && k != e.id ==> w'.segs[k] == w.segs[k])
            && Advances(w.segs[e.id], w'.segs[e.id])
            && w'.segs[e.id].start == r.seg.start && w'.segs[e.id].stop == r.seg.stop
            && w'.segs[e.id].processed == r.seg.processed
            && w'.segs[e.id].range == r.seg.range
            && w'.hist.plans == w.hist.plans + PlansOf(e.id, r.plans)
            && w'.hist.cloud == w.hist.cloud + e.slices && w'.hist.gaps == w.hist.gaps + r.gaps
            && w'.hist.debts == w.hist.debts
            && w.hist.reports <= w'.hist.reports
  {
    var x := w.segs[e.id];
    var r := TickSegment(x, e.slices, e.clips);
    assert SegmentInv(x, w.hist.origins[e.id]);
    TickKeeps(x, e.slices, e.clips);
    TickKeepsRest(x, e.slices, e.clips);
    StatusFacts(r.seg, w.tickets, r.progress);
  }

  /** The events that change neither a flag nor a counter. */
  predicate PlainEvent<Id>(e: Event<Id>) {
    e.Enqueue? || e.Redirect? || e.Finalize? || e.Jump?
  }

  predicate QuietEvent<Id>(e: Event<Id>) {
    e.Cancel? || e.Finished? || e.Skip? || e.Relist?
  }

  lemma StartIsLater<Id>(w: World<Id>, e: Event<Id>)
    requires Inv(w) && Enabled(w, e) && (e.Enqueue? || e.Redirect?)
    ensures Later(w, Apply(w, e))
  {
  }

  lemma MoveIsLater<Id>(w: World<Id>, e: Event<Id>)
    requires Inv(w) && Enabled(w, e) && (e.Finalize? || e.Jump?)
    ensures Later(w, Apply(w, e))
  {
  }

  lemma QuietIsLater<Id>(w: World<Id>, w': World<Id>)
    requires w.segs.Keys <= w'.segs.Keys && Quiet(w, w')
    ensures Later(w, w')
  {
  }

  lemma TickIsLater<Id>(w: World<Id>, e: Event<Id>)
    requires Inv(w) && Enabled(w, e) && e.Tick?
    ensures Later(w, Apply(w, e))
  {
    TickEffect(w, e);
  }

  lemma ApplyIsLater<Id>(w: World<Id>, e: Event<Id>)
    requires Inv(w) && Enabled(w, e)
    ensures Later(w, Apply(w, e))
  {
    if e.Enqueue? || e.Redirect? {
      StartIsLater(w, e);
    } else if e.Finalize? || e.Jump? {
      MoveIsLater(w, e);
    } else if QuietEvent(e) {
      QuietEvents(w, e);
      QuietIsLater(w, Apply(w, e));
    } else {
      TickIsLater(w, e);
    }
  }

  lemma {:induction false} ReplayIsLater<Id>(w: World<Id>, es: seq<Event<Id>>)
    requires Possible(w, es)
    ensures Later(w, Replay(w, es))
    decreases |es|
  {
    if es != [] {
      ApplyIsLater(w, es[0]);
      ReplayIsLater(Apply(w, es[0]), es[1..]);
      LaterTransitive(w, Apply(w, es[0]), Replay(w, es));
    }
  }

  // ----------------------------------------------------------- moving forward

  /** No position moves back. */
  ghost predicate Forward<Id>(w: World<Id>, w': World<Id>) {
    forall id :: id in w.segs ==> id in w'.segs && w.segs[id].start <= w'.segs[id].start
  }

  /** The two ways of moving back: a redirection to an earlier time, and a tick on
      an inverted window that no period on the cloud meets. */
  ghost predicate MovesBack<Id>(w: World<Id>, e: Event<Id>)
    requires Enabled(w, e)
  {
    match e
    case Redirect(id, now) => now < w.segs[id].start
    case Tick(id, slices, _) => TickGoesBack(w.segs[id], slices)
    case _ => false
  }

  lemma TickForwardIff<Id>(w: World<Id>, e: Event<Id>)
    requires Inv(w) && Enabled(w, e) && e.Tick?
    ensures Forward(w, Apply(w, e)) <==> !MovesBack(w, e)
  {
    assert SegmentInv(w.segs[e.id], w.hist.origins[e.id]);
    TickEffect(w, e);
    TickGoesBackIff(w.segs[e.id], e.slices, e.clips);
  }

  lemma PlainForwardIff<Id>(w: World<Id>, e: Event<Id>)
    requires Inv(w) && Enabled(w, e) && PlainEvent(e)
    ensures Forward(w, Apply(w, e)) <==> !MovesBack(w, e)
  {
  }

  /** An event moves no position back exactly unless it is one of those two. */
  lemma ForwardIff<Id>(w: World<Id>, e: Event<Id>)
    requires Inv(w) && Enabled(w, e)
    ensures Forward(w, Apply(w, e)) <==> !MovesBack(w, e)
  {
    if PlainEvent(e) {
      PlainForwardIff(w, e);
    } else if QuietEvent(e) {
      QuietEvents(w, e);
    } else {
      TickForwardIff(w, e);
    }
  }

  /** Every window that is still to be processed is in order. */
  ghost predicate InOrder<Id>(w: World<Id>) {
    forall id :: id in w.segs && !w.segs[id].processed ==> !w.segs[id].Inverted()
  }

  /** Windows come in order and are not redirected: neither beyond the end of the
      window nor back in time. */
  ghost predicate Orderly<Id>(w: World<Id>, e: Event<Id>)
    requires Enabled(w, e)
  {
    match e
    case Enqueue(_, seg) => !seg.Inverted()
    case Redirect(id, now) => w.segs[id].start <= now && (w.segs[id].processed || now <= w.segs[id].stop)
    case _ => true
  }

  ghost predicate OrderlyRun<Id>(w: World<Id>, es: seq<Event<Id>>)
    requires Possible(w, es)
    decreases |es|
  {
    es == [] || (Orderly(w, es[0]) && OrderlyRun(Apply(w, es[0]), es[1..]))
  }

  lemma TickKeepsOrder<Id>(w: World<Id>, e: Event<Id>)
    requires Inv(w) && Enabled(w, e) && e.Tick? && InOrder(w)
    ensures InOrder(Apply(w, e)) && !MovesBack(w, e)
  {
    assert SegmentInv(w.segs[e.id], w.hist.origins[e.id]);
    TickEffect(w, e);
    TickKeeps(w.segs[e.id], e.slices, e.clips);
  }

  lemma PlainKeepsOrder<Id>(w: World<Id>, e: Event<Id>)
    requires Inv(w) && Enabled(w, e) && PlainEvent(e) && InOrder(w) && Orderly(w, e)
    ensures InOrder(Apply(w, e)) && !MovesBack(w, e)
  {
  }

  /** Orderly events keep windows in order and positions moving forward. */
  lemma OrderlyKeeps<Id>(w: World<Id>, e: Event<Id>)
    requires Inv(w) && Enabled(w, e) && InOrder(w) && Orderly(w, e)
    ensures InOrder(Apply(w, e)) && Forward(w, Apply(w, e))
  {
    ForwardIff(w, e);
    if PlainEvent(e) {
      PlainKeepsOrder(w, e);
    } else if QuietEvent(e) {
      QuietEvents(w, e);
    } else {
      TickKeepsOrder(w, e);
    }
  }

  /** Over every orderly run positions never move back. */
  lemma {:induction false} OrderlyRunIsForward<Id>(w: World<Id>, es: seq<Event<Id>>)
    requires Possible(w, es) && InOrder(w) && OrderlyRun(w, es)
    ensures InOrder(Replay(w, es)) && Forward(w, Replay(w, es))
    decreases |es|
  {
    if es != [] {
      OrderlyKeeps(w, es[0]);
      ApplyIsLater(w, es[0]);
      OrderlyRunIsForward(Apply(w, es[0]), es[1..]);
    }
  }

  // ------------------------------------------------ no recorded instant is lost

  /** The segmenter itself, or one it relies on. */
  ghost predicate ActsFor<Id>(w: World<Id>, id: Id, other: Id) {
    other == id || (id, other) in w.hist.debts
  }

  ghost predicate PlannedFor<Id>(w: World<Id>, id: Id, t: int) {
    exists i :: 0 <= i < |w.hist.plans| && w.hist.plans[i].clip.Covers(t) && ActsFor(w, id, w.hist.plans[i].id)
  }

  ghost predicate Served<Id>(w: World<Id>, id: Id, t: int) {
    PlannedFor(w, id, t) || Covered(w.hist.cloud, t)
  }

  ghost predicate Held<Id>(w: World<Id>, id: Id, t: int) {
    Served(w, id, t) || Covered(w.hist.gaps, t)
  }

  /** No history of this kind is shorter in the later state. */
  ghost predicate Extends<Id>(w: World<Id>, w': World<Id>) {
    && w.hist.plans <= w'.hist.plans && w.hist.cloud <= w'.hist.cloud
    && w.hist.gaps <= w'.hist.gaps && w.hist.debts <= w'.hist.debts
  }

  /** Every recorded instant a segmenter has moved over since it entered is held. */
  ghost predicate Accounted<Id>(w: World<Id>, recorded: iset<int>) {
    w.segs.Keys == w.hist.since.Keys &&
    forall id, t :: id in w.segs && t in recorded && w.hist.since[id] <= t < w.segs[id].start ==> Held(w, id, t)
  }

  /** The recorder's answers during the run miss none of these instants. */
  ghost predicate HonestEvent<Id>(w: World<Id>, e: Event<Id>, recorded: iset<int>)
    requires Enabled(w, e)
  {
    e.Tick? ==> TickHonest(w.segs[e.id], e.slices, e.clips, recorded)
  }

  ghost predicate HonestRun<Id>(w: World<Id>, es: seq<Event<Id>>, recorded: iset<int>)
    requires Possible(w, es)
    decreases |es|
  {
    es == [] || (HonestEvent(w, es[0], recorded) && HonestRun(Apply(w, es[0]), es[1..], recorded))
  }

  lemma CoveredPrefix(ps: seq<Period>, qs: seq<Period>, t: int)
    requires ps <= qs && Covered(ps, t)
    ensures Covered(qs, t)
  {
    var i :| 0 <= i < |ps| && ps[i].Covers(t);
    assert qs[i].Covers(t);
  }

  lemma CoveredConcat(ps: seq<Period>, qs: seq<Period>, t: int)
    requires Covered(qs, t)
    ensures Covered(ps + qs, t)
  {
    var i :| 0 <= i < |qs| && qs[i].Covers(t);
    assert (ps + qs)[|ps| + i].Covers(t);
  }

  lemma ServedLater<Id>(w: World<Id>, w': World<Id>, id: Id, t: int)
    requires Extends(w, w') && Served(w, id, t)
    ensures Served(w', id, t)
  {
    if PlannedFor(w, id, t) {
      var i :| 0 <= i < |w.hist.plans| && w.hist.plans[i].clip.Covers(t) && ActsFor(w, id, w.hist.plans[i].id);
      assert w'.hist.plans[i].clip.Covers(t) && ActsFor(w', id, w'.hist.plans[i].id);
    } else {
      CoveredPrefix(w.hist.cloud, w'.hist.cloud, t);
    }
  }

  lemma HeldLater<Id>(w: World<Id>, w': World<Id>, id: Id, t: int)
    requires Extends(w, w') && Held(w, id, t)
    ensures Held(w', id, t)
  {
    if Served(w, id, t) {
      ServedLater(w, w', id, t);
    } else {
      CoveredPrefix(w.hist.gaps, w'.hist.gaps, t);
    }
  }

  /** What the segmenter jumped over has is exactly what the one that jumps gains. */
  lemma ServedAfterJump<Id>(w: World<Id>, e: Event<Id>, t: int)
    requires Inv(w) && Enabled(w, e) && e.Jump?
    ensures Served(Apply(w, e), e.id, t) <==> Served(w, e.id, t) || Served(w, e.over, t)
  {
    var w' := Apply(w, e);
    if Served(w, e.id, t) {
      ServedLater(w, w', e.id, t);
    }
    if PlannedFor(w, e.over, t) {
      var i :| 0 <= i < |w.hist.plans| && w.hist.plans[i].clip.Covers(t) && ActsFor(w, e.over, w.hist.plans[i].id);
      var k := w.hist.plans[i].id;
      assert ActsFor(w', e.id, k) by {
        if k != e.over {
          assert (e.over, k) in w.hist.debts;
          assert (e.id, k) in Borrowed(w.hist.debts, e.id, e.over);
        }
      }
      assert w'.hist.plans[i].clip.Covers(t);
    }
    if PlannedFor(w', e.id, t) {
      var i :| 0 <= i < |w'.hist.plans| && w'.hist.plans[i].clip.Covers(t) && ActsFor(w', e.id, w'.hist.plans[i].id);
      var k := w'.hist.plans[i].id;
      assert ActsFor(w, e.id, k) || ActsFor(w, e.over, k);
      assert w.hist.plans[i].clip.Covers(t);
    }
  }

  lemma HeldAfterJump<Id>(w: World<Id>, e: Event<Id>, t: int)
    requires Inv(w) && Enabled(w, e) && e.Jump? && Held(w, e.over, t)
    ensures Held(Apply(w, e), e.id, t)
  {
    ServedAfterJump(w, e, t);
    if Covered(w.hist.gaps, t) {
      CoveredPrefix(w.hist.gaps, Apply(w, e).hist.gaps, t);
    }
  }

  /** If only one segmenter moved, only what it moved over needs to be held. */
  lemma AccountedAfterMove<Id>(w: World<Id>, w': World<Id>, id: Id, recorded: iset<int>)
    requires Accounted(w, recorded) && id in w.segs
    requires w'.segs.Keys == w.segs.Keys && w'.hist.since == w.hist.since
    requires forall k :: k in w.segs && k != id ==> w'.segs[k].start == w.segs[k].start
    requires Extends(w, w')
    requires forall t :: t in recorded && w.segs[id].start <= t < w'.segs[id].start ==> Held(w', id, t)
    ensures Accounted(w', recorded)
  {
    forall k, t | k in w'.segs && t in recorded && w'.hist.since[k] <= t < w'.segs[k].start
      ensures Held(w', k, t)
    {
      if t < w.segs[k].start {
        HeldLater(w, w', k, t);
      }
    }
  }

  lemma QuietAccounted<Id>(w: World<Id>, w': World<Id>, recorded: iset<int>)
    requires Accounted(w, recorded) && Quiet(w, w')
    ensures Accounted(w', recorded)
  {
    forall k, t | k in w'.segs && t in recorded && w'.hist.since[k] <= t < w'.segs[k].start
      ensures Held(w', k, t)
    {
      HeldLater(w, w', k, t);
    }
  }

  lemma TickAccounted<Id>(w: World<Id>, e: Event<Id>, recorded: iset<int>)
    requires Inv(w) && Enabled(w, e) && e.Tick?
    requires Accounted(w, recorded) && HonestEvent(w, e, recorded)
    ensures Accounted(Apply(w, e), recorded)
  {
    var w' := Apply(w, e);
    var x := w.segs[e.id];
    var r := TickSegment(x, e.slices, e.clips);
    assert SegmentInv(x, w.hist.origins[e.id]);
    TickEffect(w, e);
    TickAccounts(x, e.slices, e.clips, recorded);
    forall t | t in recorded && x.start <= t < r.seg.start
      ensures Held(w', e.id, t)
    {
      if Planned(r.plans, t) {
        var i :| 0 <= i < |r.plans| && r.plans[i].Covers(t);
        var p := w'.hist.plans[|w.hist.plans| + i];
        assert p.clip.Covers(t) && ActsFor(w', e.id, p.id);
      } else if Covered(e.slices, t) {
        CoveredConcat(w.hist.cloud, e.slices, t);
      } else {
        CoveredConcat(w.hist.gaps, r.gaps, t);
      }
    }
    AccountedAfterMove(w, w', e.id, recorded);
  }

  /** What a jump moves over was handled by the segmenter jumped over, from where
      that one started; the part before is recorded as a gap. */
  lemma JumpAccounted<Id>(w: World<Id>, e: Event<Id>, recorded: iset<int>)
    requires Inv(w) && Enabled(w, e) && e.Jump? && Accounted(w, recorded)
    ensures Accounted(Apply(w, e), recorded)
  {
    var w' := Apply(w, e);
    forall t | t in recorded && w.segs[e.id].start <= t < w'.segs[e.id].start
      ensures Held(w', e.id, t)
    {
      if w.hist.since[e.over] <= t {
        HeldAfterJump(w, e, t);
      } else {
        var gaps := JumpGaps(w, e.id, e.over);
        assert gaps[0].Covers(t);
        CoveredConcat(w.hist.gaps, gaps, t);
      }
    }
    AccountedAfterMove(w, w', e.id, recorded);
  }

  /** A segmenter that enters has moved over nothing yet. */
  lemma StartAccounted<Id>(w: World<Id>, e: Event<Id>, recorded: iset<int>)
    requires Inv(w) && Enabled(w, e) && e.Enqueue? && Accounted(w, recorded)
    ensures Accounted(Apply(w, e), recorded)
  {
    var w' := Apply(w, e);
    forall k, t | k in w'.segs && t in recorded && w'.hist.since[k] <= t < w'.segs[k].start
      ensures Held(w', k, t)
    {
      HeldLater(w, w', k, t);
    }
  }

  /** What a redirection moves over is recorded as a gap. */
  lemma RedirectAccounted<Id>(w: World<Id>, e: Event<Id>, recorded: iset<int>)
    requires Inv(w) && Enabled(w, e) && e.Redirect? && Accounted(w, recorded)
    ensures Accounted(Apply(w, e), recorded)
  {
    var w' := Apply(w, e);
    forall k, t | k in w'.segs && t in recorded && w'.hist.since[k] <= t < w'.segs[k].start
      ensures Held(w', k, t)
    {
      if t < w.segs[k].start {
        HeldLater(w, w', k, t);
      } else {
        var gaps := RedirectGaps(w.segs[e.id], e.now);
        assert gaps[0].Covers(t);
        CoveredConcat(w.hist.gaps, gaps, t);
      }
    }
  }

  lemma ApplyAccounted<Id>(w: World<Id>, e: Event<Id>, recorded: iset<int>)
    requires Inv(w) && Enabled(w, e) && Accounted(w, recorded) && HonestEvent(w, e, recorded)
    ensures Accounted(Apply(w, e), recorded)
  {
    match e
    case Enqueue(_, _) => StartAccounted(w, e, recorded);
    case Redirect(_, _) => RedirectAccounted(w, e, recorded);
    case Finalize(id, _) => AccountedAfterMove(w, Apply(w, e), id, recorded);
    case Jump(_, _) => JumpAccounted(w, e, recorded);
    case Tick(_, _, _) => TickAccounted(w, e, recorded);
    case _ =>
      QuietEvents(w, e);
      QuietAccounted(w, Apply(w, e), recorded);
  }

  lemma {:induction false} ReplayAccounted<Id>(w: World<Id>, es: seq<Event<Id>>, recorded: iset<int>)
    requires Possible(w, es) && Accounted(w, recorded) && HonestRun(w, es, recorded)
    ensures Accounted(Replay(w, es), recorded)
    decreases |es|
  {
    if es != [] {
      ApplyAccounted(w, es[0], recorded);
      ReplayAccounted(Apply(w, es[0]), es[1..], recorded);
    }
  }

  /** What a segmenter is to cover reaches back to where it entered, however the run
      goes on. */
  lemma CoversFromEntry<Id>(w: World<Id>, id: Id, seg: Segment, fs: seq<Event<Id>>)
    requires Inv(w) && Enabled(w, Enqueue(id, seg)) && Possible(Apply(w, Enqueue(id, seg)), fs)
    ensures var w' := Replay(Apply(w, Enqueue(id, seg)), fs);
            id in w'.hist.since && w'.hist.since[id] <= seg.start
  {
    ReplayIsLater(Apply(w, Enqueue(id, seg)), fs);
  }

  /** This event ends that closed segmenter without canceling it. */
  ghost predicate EndsWell<Id>(w: World<Id>, e: Event<Id>, id: Id)
    requires Inv(w) && Enabled(w, e)
  {
    && id in w.segs && !w.segs[id].processed
    && var w' := Apply(w, e);
       id in w'.segs && w'.segs[id].processed && !w'.segs[id].canceled && !w'.segs[id].IsOpen()
  }

  /** A closed segmenter that ends without being canceled has reached its limit. */
  lemma EndsAtLimit<Id>(w: World<Id>, e: Event<Id>, id: Id)
    requires Inv(w) && Enabled(w, e) && EndsWell(w, e, id)
    ensures Outside(Apply(w, e).segs[id])
  {
    match e
    case Cancel(ticket) =>
      CancelFromIsQuiet(w, ticket, 0);
    case Finished(k, ok) =>
      StatusFacts(Counted(w.segs[k], ok), w.tickets, Progress(Counted(w.segs[k], ok)));
    case Skip(k) =>
      NotifyIsQuiet(Put(w, k, w.segs[k].(processed := true, finished := true)), k, 100);
    case Tick(_, _, _) => TickEndsAtLimit(w, e, id);
    case _ =>
  }

  lemma TickEndsAtLimit<Id>(w: World<Id>, e: Event<Id>, id: Id)
    requires Inv(w) && Enabled(w, e) && e.Tick? && EndsWell(w, e, id)
    ensures Outside(Apply(w, e).segs[id])
  {
    TickEffect(w, e);
    assert SegmentInv(w.segs[e.id], w.hist.origins[e.id]);
    TickKeeps(w.segs[e.id], e.slices, e.clips);
    TickKeepsRest(w.segs[e.id], e.slices, e.clips);
  }

  /** No recorded instant is lost. Take any run from the start in which the
      recorder misses none of the given instants, and any event after it that ends
      a closed segmenter without canceling it: every such instant from where it
      entered up to its end plus its post-record time is in a clip planned by it or by one it jumped over, in a period seen on the
      cloud, or in a recorded gap. */
  lemma NoInstantLost<Id>(es: seq<Event<Id>>, e: Event<Id>, id: Id, recorded: iset<int>)
    requires Possible(Start(), es) && HonestRun(Start(), es, recorded)
    requires var w := Replay(Start(), es);
             Inv(w) && Enabled(w, e) && HonestEvent(w, e, recorded) && EndsWell(w, e, id)
    ensures var w' := Apply(Replay(Start(), es), e);
            && id in w'.hist.since
            && forall t :: t in recorded && w'.hist.since[id] <= t < w'.segs[id].Limit() ==> Held(w', id, t)
  {
    var w := Replay(Start(), es);
    ReplayAccounted(Start(), es, recorded);
    ApplyAccounted(w, e, recorded);
    EndsAtLimit(w, e, id);
  }

  /** A run may be continued by any enabled event. */
  lemma {:induction false} OneMore<Id>(w: World<Id>, es: seq<Event<Id>>, e: Event<Id>, recorded: iset<int>)
    requires Possible(w, es) && HonestRun(w, es, recorded)
    requires Inv(Replay(w, es)) && Enabled(Replay(w, es), e) && HonestEvent(Replay(w, es), e, recorded)
    ensures Possible(w, es + [e]) && HonestRun(w, es + [e], recorded)
    ensures Replay(w, es + [e]) == Apply(Replay(w, es), e)
    decreases |es|
  {
    if es == [] {
      assert es + [e] == [e] && [e][1..] == [];
      ApplyKeepsInv(w, e);
      assert Possible(Apply(w, e), []);
    } else {
      assert (es + [e])[0] == es[0] && (es + [e])[1..] == es[1..] + [e];
      OneMore(Apply(w, es[0]), es[1..], e, recorded);
    }
  }

  // ------------------------------------------------ no double upload, status

  lemma StartInv<Id>()
    ensures Inv(Start<Id>())
  {
  }

  /** Over every run, the clips a segmenter plans come in order without overlap,
      all of them at or behind its position. */
  lemma NoDoubleUploadOverRuns<Id>(es: seq<Event<Id>>)
    requires Possible(Start(), es)
    ensures NoDoubleUpload(Replay(Start(), es).hist.plans)
    ensures forall i :: 0 <= i < |Replay(Start(), es).hist.plans| ==>
                          PlanInv(Replay(Start(), es), Replay(Start(), es).hist.plans[i])
  {
    ReplayKeepsInv(Start(), es);
  }

  /** A clip planned for a segmenter overlaps no clip of another segmenter whose
      position it starts at or after. */
  lemma TickAvoidsOthers<Id>(w: World<Id>, e: Event<Id>, other: Id)
    requires Inv(w) && Enabled(w, e) && e.Tick?
    requires other in w.segs && other != e.id && w.segs[other].start <= w.segs[e.id].start
    ensures var ps := Apply(w, e).hist.plans;
            forall i, j :: 0 <= i < |w.hist.plans| <= j < |ps| && ps[i].id == other ==>
                             ps[i].clip.stop <= ps[j].clip.start
  {
    var x := w.segs[e.id];
    assert SegmentInv(x, w.hist.origins[e.id]);
    TickEffect(w, e);
    TickKeeps(x, e.slices, e.clips);
    var ps, r := Apply(w, e).hist.plans, TickSegment(x, e.slices, e.clips);
    forall i, j | 0 <= i < |w.hist.plans| <= j < |ps| && ps[i].id == other
      ensures ps[i].clip.stop <= ps[j].clip.start
    {
      assert PlanInv(w, w.hist.plans[i]);
      assert r.plans[j - |w.hist.plans|] in r.plans;
    }
  }

  /** Over every run, the reports of a segmenter are pending ones, followed either
      by one final report and silence or by cancellations only; a final report
      comes when everything planned has reported, says whether any upload
      succeeded, and nothing is planned after it, however the run goes on. */
  lemma StatusProtocolOverRuns<Id>(es: seq<Event<Id>>, fs: seq<Event<Id>>)
    requires Possible(Start(), es) && Possible(Replay(Start(), es), fs)
    ensures var w, w' := Replay(Start(), es), Replay(Replay(Start(), es), fs);
            && ReportProtocol(w'.hist.reports)
            && w.hist.reports <= w'.hist.reports
            && forall i :: 0 <= i < |w.hist.reports| && w.hist.reports[i].Final() ==>
                 var r := w.hist.reports[i];
                 && r.id in w'.segs && w'.segs[r.id].planned == r.planned == r.done + r.failed
                 && (r.status == Done <==> r.done > 0)
                 && forall j :: i < j < |w'.hist.reports| ==> w'.hist.reports[j].id != r.id
  {
    var w := Replay(Start(), es);
    ReplayKeepsInv(Start(), es);
    ReplayKeepsInv(w, fs);
    ReplayIsLater(w, fs);
    var w' := Replay(w, fs);
    forall i | 0 <= i < |w.hist.reports| && w.hist.reports[i].Final()
      ensures var r := w.hist.reports[i];
              && r.id in w'.segs && w'.segs[r.id].planned == r.planned == r.done + r.failed
              && (r.status == Done <==> r.done > 0)
              && forall j :: i < j < |w'.hist.reports| ==> w'.hist.reports[j].id != r.id
    {
      assert w'.hist.reports[i] == w.hist.reports[i];
      assert EntryInv(w', w'.hist.reports[i]);
    }
  }

  /** In every reachable state a finished segmenter is processed. */
  lemma FinishedImpliesProcessed<Id>(es: seq<Event<Id>>)
    requires Possible(Start(), es)
    ensures var w := Replay(Start(), es);
            forall id :: id in w.segs && w.segs[id].finished ==> w.segs[id].processed
  {
    ReplayKeepsInv(Start(), es);
    var w := Replay(Start(), es);
    forall id | id in w.segs && w.segs[id].finished
      ensures w.segs[id].processed
    {
      assert SegmentInv(w.segs[id], w.hist.origins[id]);
    }
  }

  // --------------------------------------------------------- reachable states

  /** A run from the start, with a recorder that misses none of these instants,
      leads to the state. */
  ghost predicate Reached<Id(!new)>(w: World<Id>, recorded: iset<int>) {
    Inv(w) && exists es :: Possible(Start(), es) && HonestRun(Start(), es, recorded) && Replay(Start(), es) == w
  }

  lemma ReachedStart<Id(!new)>(recorded: iset<int>)
    ensures Reached(Start<Id>(), recorded)
  {
    StartInv<Id>();
    var none: seq<Event<Id>> := [];
    assert Possible(Start<Id>(), none) && HonestRun(Start<Id>(), none, recorded);
  }

  lemma ReachedNext<Id(!new)>(w: World<Id>, e: Event<Id>, w': World<Id>, recorded: iset<int>)
    requires Reached(w, recorded) && Enabled(w, e) && HonestEvent(w, e, recorded) && w' == Apply(w, e)
    ensures Reached(w', recorded)
  {
    var es :| Possible(Start(), es) && HonestRun(Start(), es, recorded) && Replay(Start(), es) == w;
    OneMore(Start(), es, e, recorded);
    ReplayKeepsInv(Start(), es + [e]);
  }
}
