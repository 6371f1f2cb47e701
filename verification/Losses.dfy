/** Recorded data that is lost, planned and kept, or planned and dropped: exactly which
    events bring that about, and what holds over every run without them. */
module Losses {
  import opened Periods
  import opened Segments
  import opened Machine
  import opened Runs
  import opened Reports

  // ---------------------------------------------------------------- loss

  /** Nothing is known that excludes a recording at this time: every segmenter that
      has passed it accounts for it. */
  ghost predicate MayBeRecorded<Id>(w: World<Id>, t: int) {
    Accounted(w, iset{t})
  }

  /** An instant ahead that the segmenter is to cover, that may be recorded, and that
      nothing serves so far. */
  ghost predicate Exposed<Id>(w: World<Id>, id: Id, t: int) {
    && id in w.segs && id in w.hist.since
    && w.hist.since[id] <= t && w.segs[id].start <= t && !Served(w, id, t) && MayBeRecorded(w, t)
  }

  /** The three ways of losing data: a jump over an instant that the segmenter jumped
      over does not have either, a redirection past an instant, and a tick whose clip
      exceeds ten minutes and ends before an instant of its window. */
  ghost predicate MayLose<Id>(w: World<Id>, e: Event<Id>)
    requires Inv(w) && Enabled(w, e)
  {
    match e
    case Jump(id, over) => exists t :: t < w.segs[over].start && Exposed(w, id, t) && !Served(w, over, t)
    case Redirect(id, now) => exists t :: t < now && Exposed(w, id, t)
    case Tick(id, slices, clips) =>
      && CheckWindow(w.segs[id], slices).upload && CutsShort(Checked(w.segs[id], slices), clips)
      && exists t :: clips[0].stop <= t < Clamp(Checked(w.segs[id], slices)).stop && Exposed(w, id, t)
    case _ => false
  }

  /** The event takes a segmenter past an instant it is to cover and that nothing
      serves. */
  ghost predicate Passes<Id>(w: World<Id>, e: Event<Id>, id: Id, t: int)
    requires Inv(w) && Enabled(w, e)
  {
    var w' := Apply(w, e);
    && id in w.segs && id in w'.segs && id in w'.hist.since
    && w'.hist.since[id] <= t && w.segs[id].start <= t < w'.segs[id].start && !Served(w', id, t)
  }

  /** With a history and a recorder that are honest about what is recorded, the event
      loses this instant. */
  ghost predicate Loses<Id>(w: World<Id>, e: Event<Id>, recorded: iset<int>, t: int)
    requires Inv(w) && Enabled(w, e)
  {
    && Accounted(w, recorded) && HonestEvent(w, e, recorded) && t in recorded
    && exists id :: id in w.segs && Passes(w, e, id, t)
  }

  lemma AccountedOne<Id>(w: World<Id>, recorded: iset<int>, t: int)
    requires Accounted(w, recorded) && t in recorded
    ensures MayBeRecorded(w, t)
  {
  }

  lemma NotServedBefore<Id>(w: World<Id>, w': World<Id>, id: Id, t: int)
    requires Extends(w, w') && !Served(w', id, t)
    ensures !Served(w, id, t)
  {
    if Served(w, id, t) {
      ServedLater(w, w', id, t);
    }
  }

  lemma JumpLosesIff<Id>(w: World<Id>, e: Event<Id>)
    requires Inv(w) && Enabled(w, e) && e.Jump?
    ensures (exists recorded, t :: Loses(w, e, recorded, t)) <==> MayLose(w, e)
  {
    var w' := Apply(w, e);
    forall recorded, t | Loses(w, e, recorded, t)
      ensures t < w.segs[e.over].start && Exposed(w, e.id, t) && !Served(w, e.over, t)
    {
      AccountedOne(w, recorded, t);
      ServedAfterJump(w, e, t);
    }
    forall t | t < w.segs[e.over].start && Exposed(w, e.id, t) && !Served(w, e.over, t)
      ensures Loses(w, e, iset{t}, t)
    {
      ServedAfterJump(w, e, t);
      assert Passes(w, e, e.id, t);
    }
  }

  lemma RedirectLosesIff<Id>(w: World<Id>, e: Event<Id>)
    requires Inv(w) && Enabled(w, e) && e.Redirect?
    ensures (exists recorded, t :: Loses(w, e, recorded, t)) <==> MayLose(w, e)
  {
    var w' := Apply(w, e);
    assert forall t :: Served(w', e.id, t) <==> Served(w, e.id, t);
    forall recorded, t | Loses(w, e, recorded, t)
      ensures t < e.now && Exposed(w, e.id, t)
    {
      AccountedOne(w, recorded, t);
    }
    forall t | t < e.now && Exposed(w, e.id, t)
      ensures Loses(w, e, iset{t}, t)
    {
      assert Passes(w, e, e.id, t);
    }
  }

  /** What a tick moves over without serving it is the rest behind an over-long clip. */
  lemma TickLoses<Id>(w: World<Id>, e: Event<Id>, recorded: iset<int>, t: int)
    requires Inv(w) && Enabled(w, e) && e.Tick? && Loses(w, e, recorded, t)
    ensures var y := Checked(w.segs[e.id], e.slices);
            && CheckWindow(w.segs[e.id], e.slices).upload && CutsShort(y, e.clips)
            && e.clips[0].stop <= t < Clamp(y).stop && Exposed(w, e.id, t)
  {
    var x, w' := w.segs[e.id], Apply(w, e);
    var r := TickSegment(x, e.slices, e.clips);
    TickEffect(w, e);
    AccountedOne(w, recorded, t);
    NotServedBefore(w, w', e.id, t);
    assert SegmentInv(x, w.hist.origins[e.id]);
    TickAccounts(x, e.slices, e.clips, recorded);
    NotInPlans(w, e, t);
    if Covered(e.slices, t) {
      CoveredConcat(w.hist.cloud, e.slices, t);
    }
  }

  lemma NotInPlans<Id>(w: World<Id>, e: Event<Id>, t: int)
    requires Inv(w) && Enabled(w, e) && e.Tick? && !Served(Apply(w, e), e.id, t)
    ensures !Planned(TickSegment(w.segs[e.id], e.slices, e.clips).plans, t)
  {
    var w', r := Apply(w, e), TickSegment(w.segs[e.id], e.slices, e.clips);
    TickEffect(w, e);
    if Planned(r.plans, t) {
      var i :| 0 <= i < |r.plans| && r.plans[i].Covers(t);
      var p := w'.hist.plans[|w.hist.plans| + i];
      assert p.clip.Covers(t) && ActsFor(w', e.id, p.id);
    }
  }

  lemma TickPassesExposed<Id>(w: World<Id>, e: Event<Id>, t: int)
    requires Inv(w) && Enabled(w, e) && e.Tick? && Exposed(w, e.id, t)
    requires var y := Checked(w.segs[e.id], e.slices);
             && CheckWindow(w.segs[e.id], e.slices).upload && CutsShort(y, e.clips)
             && e.clips[0].stop <= t < Clamp(y).stop
    ensures Loses(w, e, iset{t}, t)
  {
    var x, w' := w.segs[e.id], Apply(w, e);
    var r := TickSegment(x, e.slices, e.clips);
    TickEffect(w, e);
    assert SegmentInv(x, w.hist.origins[e.id]);
    CheckIsExact(x, e.slices);
    assert r.plans == [e.clips[0]] && !e.clips[0].Covers(t) && !Covered(e.slices, t);
    assert !Served(w', e.id, t) by {
      NothingServes(w, w', e.id, r.plans[0], e.slices, t);
    }
    assert Passes(w, e, e.id, t);
  }

  lemma NothingServes<Id>(w: World<Id>, w': World<Id>, id: Id, clip: Clip, slices: seq<Period>, t: int)
    requires w'.hist.plans == w.hist.plans + [Plan(id, clip)] && w'.hist.cloud == w.hist.cloud + slices
    requires w'.hist.debts == w.hist.debts
    requires !Served(w, id, t) && !clip.Covers(t) && !Covered(slices, t)
    ensures !Served(w', id, t)
  {
  }

  lemma TickLosesIff<Id>(w: World<Id>, e: Event<Id>)
    requires Inv(w) && Enabled(w, e) && e.Tick?
    ensures (exists recorded, t :: Loses(w, e, recorded, t)) <==> MayLose(w, e)
  {
    if recorded, t :| Loses(w, e, recorded, t) {
      TickLoses(w, e, recorded, t);
    }
    if MayLose(w, e) {
      var y := Checked(w.segs[e.id], e.slices);
      var t :| e.clips[0].stop <= t < Clamp(y).stop && Exposed(w, e.id, t);
      TickPassesExposed(w, e, t);
    }
  }

  lemma OthersLoseNothing<Id>(w: World<Id>, e: Event<Id>)
    requires Inv(w) && Enabled(w, e) && !e.Jump? && !e.Redirect? && !e.Tick?
    ensures forall id, t :: id in w.segs ==> !Passes(w, e, id, t)
  {
    if QuietEvent(e) {
      QuietEvents(w, e);
    }
  }

  /** For every event: there are recorded instants, with a history and a recorder that
      are honest about them, one of which the event loses, exactly if it is one of the
      three with its condition. */
  lemma LosesIff<Id>(w: World<Id>, e: Event<Id>)
    requires Inv(w) && Enabled(w, e)
    ensures (exists recorded, t :: Loses(w, e, recorded, t)) <==> MayLose(w, e)
  {
    if e.Jump? {
      JumpLosesIff(w, e);
    } else if e.Redirect? {
      RedirectLosesIff(w, e);
    } else if e.Tick? {
      TickLosesIff(w, e);
    } else {
      OthersLoseNothing(w, e);
    }
  }

  // ------------------------------------------------------- runs without loss

  ghost predicate LossFree<Id>(w: World<Id>, es: seq<Event<Id>>)
    requires Possible(w, es)
    decreases |es|
  {
    es == [] || (!MayLose(w, es[0]) && LossFree(Apply(w, es[0]), es[1..]))
  }

  /** Every recorded instant a segmenter has moved over is planned for it or was on
      the cloud. */
  ghost predicate AllServed<Id>(w: World<Id>, recorded: iset<int>) {
    w.segs.Keys == w.hist.since.Keys &&
    forall id, t :: id in w.segs && t in recorded && w.hist.since[id] <= t < w.segs[id].start ==> Served(w, id, t)
  }

  lemma ServedStep<Id>(w: World<Id>, e: Event<Id>, recorded: iset<int>)
    requires Inv(w) && Enabled(w, e) && HonestEvent(w, e, recorded) && !MayLose(w, e) && AllServed(w, recorded)
    ensures AllServed(Apply(w, e), recorded)
  {
    var w' := Apply(w, e);
    ApplyKeepsInv(w, e);
    ApplyIsLater(w, e);
    LosesIff(w, e);
    assert Accounted(w, recorded);
    forall id, t | id in w'.segs && t in recorded && w'.hist.since[id] <= t < w'.segs[id].start
      ensures Served(w', id, t)
    {
      AskedBefore(w, e, id, t);
      if t < w.segs[id].start {
        ServedLater(w, w', id, t);
      } else {
        assert !Loses(w, e, recorded, t);
        assert !Passes(w, e, id, t);
      }
    }
  }

  /** What a segmenter has moved over it was to cover already. */
  lemma AskedBefore<Id>(w: World<Id>, e: Event<Id>, id: Id, t: int)
    requires Inv(w) && Enabled(w, e) && id in Apply(w, e).segs && id in Apply(w, e).hist.since
    requires Apply(w, e).hist.since[id] <= t < Apply(w, e).segs[id].start
    ensures id in w.segs && w.hist.since[id] <= t
  {
    if QuietEvent(e) {
      QuietEvents(w, e);
    } else if e.Tick? {
      TickEffect(w, e);
    }
  }

  lemma {:induction false} LossFreeRun<Id>(w: World<Id>, es: seq<Event<Id>>, recorded: iset<int>)
    requires Possible(w, es) && HonestRun(w, es, recorded) && LossFree(w, es) && AllServed(w, recorded)
    ensures AllServed(Replay(w, es), recorded)
    decreases |es|
  {
    if es != [] {
      ServedStep(w, es[0], recorded);
      LossFreeRun(Apply(w, es[0]), es[1..], recorded);
    }
  }

  /** In a run in which no event loses anything, everything recorded in the range, from
      where the segmenter entered, is planned, by the segmenter itself or by one it
      jumped over, or was on the cloud already. */
  lemma EverythingPlanned<Id>(es: seq<Event<Id>>, e: Event<Id>, id: Id, recorded: iset<int>)
    requires Possible(Start(), es) && HonestRun(Start(), es, recorded) && LossFree(Start(), es)
    requires var w := Replay(Start(), es);
             && Inv(w) && Enabled(w, e) && HonestEvent(w, e, recorded) && !MayLose(w, e) && EndsWell(w, e, id)
    ensures var w' := Apply(Replay(Start(), es), e);
            && id in w'.hist.since
            && forall t :: t in recorded && w'.hist.since[id] <= t < w'.segs[id].Limit() ==> Served(w', id, t)
  {
    LossFreeRun(Start(), es, recorded);
    ServedStep(Replay(Start(), es), e, recorded);
    EndsAtLimit(Replay(Start(), es), e, id);
  }

  // ------------------------------------------------------------ recorded gaps

  /** The moves that are recorded as gaps: a jump over a segmenter that started later
      than the position jumped from, a redirection to a later time, and an over-long
      clip that ends before its window. */
  ghost predicate LeavesGap<Id>(w: World<Id>, e: Event<Id>)
    requires Inv(w) && Enabled(w, e)
  {
    match e
    case Jump(id, over) => w.segs[id].start < w.hist.since[over]
    case Redirect(id, now) => w.segs[id].start < now
    case Tick(id, slices, clips) =>
      CheckWindow(w.segs[id], slices).upload && CutsShort(Checked(w.segs[id], slices), clips)
    case _ => false
  }

  ghost predicate GapFree<Id>(w: World<Id>, es: seq<Event<Id>>)
    requires Possible(w, es)
    decreases |es|
  {
    es == [] || (!LeavesGap(w, es[0]) && GapFree(Apply(w, es[0]), es[1..]))
  }

  /** What this event may record as a gap: a period, not empty, of what it moves over, in a
      jump only where the segmenter jumped over was not to cover. */
  ghost predicate GapOf<Id>(w: World<Id>, e: Event<Id>, p: Period)
    requires Inv(w) && Enabled(w, e) && (e.Jump? || e.Redirect? || e.Tick?)
  {
    && e.id in Apply(w, e).segs && p.begin < p.end
    && w.segs[e.id].start <= p.begin && p.end <= Apply(w, e).segs[e.id].start
    && (e.Jump? ==> p.end <= w.hist.since[e.over])
  }

  /** Each of these moves records one gap, and no other event any. */
  lemma GapsGrowIff<Id>(w: World<Id>, e: Event<Id>)
    requires Inv(w) && Enabled(w, e)
    ensures var gaps := Apply(w, e).hist.gaps;
            if LeavesGap(w, e) then exists p: Period :: GapOf(w, e, p) && gaps == w.hist.gaps + [p]
            else gaps == w.hist.gaps
  {
    if QuietEvent(e) {
      QuietEvents(w, e);
    } else {
      if e.Tick? {
        TickEffect(w, e);
      }
      if LeavesGap(w, e) {
        var p := match e
          case Jump(id, over) => JumpGaps(w, id, over)[0]
          case Redirect(id, now) => RedirectGaps(w.segs[id], now)[0]
          case Tick(id, slices, clips) => StepGaps(Checked(w.segs[id], slices), clips)[0];
        if e.Tick? {
          TickGapOf(w, e, p);
        }
        assert GapOf(w, e, p) && Apply(w, e).hist.gaps == w.hist.gaps + [p];
      }
    }
  }

  lemma TickGapOf<Id>(w: World<Id>, e: Event<Id>, p: Period)
    requires Inv(w) && Enabled(w, e) && e.Tick? && LeavesGap(w, e)
    requires p == StepGaps(Checked(w.segs[e.id], e.slices), e.clips)[0]
    ensures GapOf(w, e, p)
  {
    assert SegmentInv(w.segs[e.id], w.hist.origins[e.id]);
    CheckIsExact(w.segs[e.id], e.slices);
    TickEffect(w, e);
  }

  /** As long as there is no gap, only an event that leaves one can lose anything. */
  lemma NoGapNoLoss<Id>(w: World<Id>, e: Event<Id>)
    requires Inv(w) && Enabled(w, e) && w.hist.gaps == [] && !LeavesGap(w, e)
    ensures !MayLose(w, e) && Apply(w, e).hist.gaps == []
  {
    GapsGrowIff(w, e);
    if e.Jump? {
      forall t | t < w.segs[e.over].start && Exposed(w, e.id, t)
        ensures Served(w, e.over, t)
      {
        assert t in iset{t} && Held(w, e.over, t);
      }
    }
  }

  /** So a run without such events, which their guards tell in advance, loses nothing. */
  lemma {:induction false} GapFreeRun<Id>(w: World<Id>, es: seq<Event<Id>>)
    requires Possible(w, es) && GapFree(w, es) && w.hist.gaps == []
    ensures Replay(w, es).hist.gaps == [] && LossFree(w, es)
    decreases |es|
  {
    if es != [] {
      NoGapNoLoss(w, es[0]);
      GapFreeRun(Apply(w, es[0]), es[1..]);
    }
  }

  // ----------------------------------------------------- kept and dropped

  /** A clip that holds the instant is planned by a segmenter that is not canceled. */
  ghost predicate Kept<Id>(w: World<Id>, t: int) {
    exists i :: 0 <= i < |w.hist.plans| && Keeps(w, i, t)
  }

  ghost predicate Keeps<Id>(w: World<Id>, i: nat, t: int)
    requires i < |w.hist.plans|
  {
    var p := w.hist.plans[i];
    p.clip.Covers(t) && p.id in w.segs && !w.segs[p.id].canceled
  }

  /** The segmenter's ticket is waiting to be canceled with its next report. */
  predicate Doomed(x: Segment, tickets: seq<string>) {
    x.ticket != "" && x.ticket in tickets
  }

  /** What cancels a segmenter: the cancellation of its ticket while it is listed, and,
      once its ticket is remembered as canceled, the next report due for it: of an
      upload, of its end by a skip, or of its end by a tick with nothing planned. */
  ghost predicate CancelsIt<Id>(w: World<Id>, e: Event<Id>, id: Id)
    requires id in w.segs
  {
    var x := w.segs[id];
    match e
    case Cancel(ticket) => ticket != "" && x.ticket == ticket && id in w.list
    case Finished(k, _) => k == id && Doomed(x, w.tickets)
    case Skip(k) => k == id && Doomed(x, w.tickets)
    case Tick(k, slices, clips) =>
      k == id && Doomed(x, w.tickets) && TickEnds(x, slices, clips) && x.planned == 0 && !TickAdds(x, slices, clips)
    case _ => false
  }

  lemma StatusCancelsIff(x: Segment, tickets: seq<string>, progress: nat)
    ensures SendStatus(x, tickets, progress).seg.canceled <==> x.canceled || Doomed(x, tickets)
  {
  }

  lemma {:induction false} CancelFromIff<Id>(w: World<Id>, ticket: string, i: nat, id: Id)
    requires (forall k :: k in w.list ==> k in w.segs) && i <= |w.list| && id in w.segs && !w.segs[id].canceled
    ensures var w' := CancelFrom(w, ticket, i);
            id in w'.segs && (w'.segs[id].canceled <==> w.segs[id].ticket == ticket && id in w.list[i..])
    decreases |w.list| - i
  {
    if i < |w.list| {
      var k := w.list[i];
      assert w.list[i..] == [k] + w.list[i + 1..];
      if Cancels(w, k, ticket) {
        CancelOneIsQuiet(w, k);
        if k == id {
          CancelFromIsQuiet(CancelOne(w, k), ticket, i + 1);
        } else {
          CancelOneLeavesOthers(w, k, id);
          CancelFromIff(CancelOne(w, k), ticket, i + 1, id);
        }
      } else {
        CancelFromIff(w, ticket, i + 1, id);
      }
    }
  }

  lemma TickCancelsIff<Id>(w: World<Id>, e: Event<Id>, id: Id)
    requires Inv(w) && Enabled(w, e) && e.Tick? && id in w.segs && !w.segs[id].canceled
    ensures id in Apply(w, e).segs && (Apply(w, e).segs[id].canceled <==> CancelsIt(w, e, id))
  {
    var r := TickSegment(w.segs[e.id], e.slices, e.clips);
    assert SegmentInv(w.segs[e.id], w.hist.origins[e.id]);
    TickNotifiesIff(w.segs[e.id], e.slices, e.clips);
    TickKeepsRest(w.segs[e.id], e.slices, e.clips);
    StatusCancelsIff(r.seg, w.tickets, r.progress);
  }

  /** For every event, an uncanceled segmenter becomes canceled exactly if the event is
      one of those. */
  lemma CanceledIff<Id>(w: World<Id>, e: Event<Id>, id: Id)
    requires Inv(w) && Enabled(w, e) && id in w.segs && !w.segs[id].canceled
    ensures id in Apply(w, e).segs && (Apply(w, e).segs[id].canceled <==> CancelsIt(w, e, id))
  {
    match e
    case Cancel(ticket) =>
      CancelFromIff(w, ticket, 0, id);
      assert w.list[0..] == w.list;
    case Finished(k, ok) => FinishedCancelsIff(w, k, ok, id);
    case Skip(k) => SkipCancelsIff(w, k, id);
    case Tick(_, _, _) => TickCancelsIff(w, e, id);
    case _ =>
  }

  lemma FinishedCancelsIff<Id>(w: World<Id>, k: Id, ok: bool, id: Id)
    requires k in w.segs && w.segs[k].planned > 0 && id in w.segs && !w.segs[id].canceled
    ensures var w' := Absorb(w, k, UploadFinished(w.segs[k], w.tickets, ok));
            id in w'.segs && (w'.segs[id].canceled <==> k == id && Doomed(w.segs[id], w.tickets))
  {
    StatusCancelsIff(Counted(w.segs[k], ok), w.tickets, Progress(Counted(w.segs[k], ok)));
  }

  lemma SkipCancelsIff<Id>(w: World<Id>, k: Id, id: Id)
    requires k in w.segs && id in w.segs && !w.segs[id].canceled
    ensures var w' := SkipWorld(w, k);
            id in w'.segs && (w'.segs[id].canceled <==> k == id && Doomed(w.segs[id], w.tickets))
  {
    StatusCancelsIff(w.segs[k].(processed := true, finished := true), w.tickets, 100);
  }

  /** A plan that holds the instant keeps holding it. */
  ghost predicate GoesOnKeeping<Id>(w: World<Id>, e: Event<Id>, i: nat, t: int)
    requires i < |w.hist.plans|
  {
    Keeps(w, i, t) && !CancelsIt(w, e, w.hist.plans[i].id)
  }

  lemma KeepsIff<Id>(w: World<Id>, e: Event<Id>, i: nat, t: int)
    requires Inv(w) && Enabled(w, e) && i < |w.hist.plans|
    ensures i < |Apply(w, e).hist.plans| && (Keeps(Apply(w, e), i, t) <==> GoesOnKeeping(w, e, i, t))
  {
    var id := w.hist.plans[i].id;
    assert PlanInv(w, w.hist.plans[i]);
    ApplyIsLater(w, e);
    assert Apply(w, e).hist.plans[i] == w.hist.plans[i];
    if !w.segs[id].canceled {
      CanceledIff(w, e, id);
    }
  }

  /** What an event plans itself. */
  ghost predicate Plans<Id>(w: World<Id>, e: Event<Id>, t: int)
    requires Enabled(w, e)
  {
    e.Tick? && Planned(TickSegment(w.segs[e.id], e.slices, e.clips).plans, t)
  }

  lemma PlansIsKept<Id>(w: World<Id>, e: Event<Id>, t: int)
    requires Inv(w) && Enabled(w, e) && e.Tick?
    ensures var ps := Apply(w, e).hist.plans;
            Plans(w, e, t) <==> exists i :: |w.hist.plans| <= i < |ps| && Keeps(Apply(w, e), i, t)
  {
    var w', r := Apply(w, e), TickSegment(w.segs[e.id], e.slices, e.clips);
    TickEffect(w, e);
    TickCancelsIff(w, e, e.id);
    assert SegmentInv(w.segs[e.id], w.hist.origins[e.id]);
    TickAddsOne(w.segs[e.id], e.slices, e.clips);
    if i :| 0 <= i < |r.plans| && r.plans[i].Covers(t) {
      assert Keeps(w', |w.hist.plans| + i, t);
    }
    if i :| |w.hist.plans| <= i < |w'.hist.plans| && Keeps(w', i, t) {
      assert r.plans[i - |w.hist.plans|].Covers(t);
    }
  }

  lemma OthersPlanNothing<Id>(w: World<Id>, e: Event<Id>)
    requires Inv(w) && Enabled(w, e) && !e.Tick?
    ensures Apply(w, e).hist.plans == w.hist.plans
  {
    if QuietEvent(e) {
      QuietEvents(w, e);
    }
  }

  /** For every event, an instant is kept afterwards exactly if a plan that kept it goes
      on, or the event plans it. So it is dropped exactly by an event that cancels the
      last segmenter whose plan kept it. */
  lemma KeptIff<Id>(w: World<Id>, e: Event<Id>, t: int)
    requires Inv(w) && Enabled(w, e)
    ensures Kept(Apply(w, e), t) <==>
              (exists i :: 0 <= i < |w.hist.plans| && GoesOnKeeping(w, e, i, t)) || Plans(w, e, t)
  {
    var w' := Apply(w, e);
    ApplyIsLater(w, e);
    forall i | 0 <= i < |w.hist.plans|
      ensures Keeps(w', i, t) <==> GoesOnKeeping(w, e, i, t)
    {
      KeepsIff(w, e, i, t);
    }
    if e.Tick? {
      PlansIsKept(w, e, t);
    } else {
      OthersPlanNothing(w, e);
    }
  }

  /** Planned by a canceled segmenter on whose plans this one relies, and by no other
      than canceled ones. */
  ghost predicate Dropped<Id>(w: World<Id>, id: Id, t: int) {
    && (exists i :: && 0 <= i < |w.hist.plans| && w.hist.plans[i].clip.Covers(t)
                    && (id, w.hist.plans[i].id) in w.hist.debts)
    && !Kept(w, t)
  }

  /** The uploads of a canceled segmenter are dropped. However a run without loss goes
      on after the segmenter ended, as long as it is not canceled itself: an instant
      recorded in its range that was not on the cloud is kept exactly unless it was
      planned by segmenters it jumped over, and all who planned it are canceled. */
  lemma KeptUnlessBorrowed<Id>(
    es: seq<Event<Id>>, e: Event<Id>, fs: seq<Event<Id>>, id: Id, recorded: iset<int>)
    requires Possible(Start(), es) && HonestRun(Start(), es, recorded) && LossFree(Start(), es)
    requires var w := Replay(Start(), es);
             && Inv(w) && Enabled(w, e) && HonestEvent(w, e, recorded) && !MayLose(w, e) && EndsWell(w, e, id)
             && Possible(Apply(w, e), fs)
             && id in Replay(Apply(w, e), fs).segs && !Replay(Apply(w, e), fs).segs[id].canceled
    ensures var w' := Apply(Replay(Start(), es), e); var w'' := Replay(w', fs);
            && id in w'.hist.since
            && forall t :: t in recorded && w'.hist.since[id] <= t < w'.segs[id].Limit() && !Covered(w''.hist.cloud, t) ==>
                             (Kept(w'', t) <==> !Dropped(w'', id, t))
  {
    EverythingPlanned(es, e, id, recorded);
    var w' := Apply(Replay(Start(), es), e);
    var w'' := Replay(w', fs);
    ReplayIsLater(w', fs);
    ReplayKeepsInv(w', fs);
    forall t | t in recorded && w'.hist.since[id] <= t < w'.segs[id].Limit() && !Covered(w''.hist.cloud, t)
      ensures Kept(w'', t) <==> !Dropped(w'', id, t)
    {
      if Covered(w'.hist.cloud, t) {
        CoveredPrefix(w'.hist.cloud, w''.hist.cloud, t);
      }
      KeptOrDropped(w', w'', id, t);
    }
  }

  lemma KeptOrDropped<Id>(w: World<Id>, w': World<Id>, id: Id, t: int)
    requires PlannedFor(w, id, t) && Inv(w') && Later(w, w') && id in w'.segs && !w'.segs[id].canceled
    ensures Kept(w', t) || Dropped(w', id, t)
  {
    var i :| 0 <= i < |w.hist.plans| && w.hist.plans[i].clip.Covers(t) && ActsFor(w, id, w.hist.plans[i].id);
    assert w'.hist.plans[i] == w.hist.plans[i];
    assert PlanInv(w', w'.hist.plans[i]);
    assert w.hist.plans[i].id == id ==> Keeps(w', i, t);
  }

  // ------------------------------------------------------------ short windows

  ghost predicate AllShort<Id>(w: World<Id>) {
    forall id :: id in w.segs && !w.segs[id].processed ==> ShortWindow(w.segs[id])
  }

  /** Segmenters come with windows and steps of at most ten minutes, and are not
      redirected to a time more than that before the end of their window. */
  ghost predicate Short<Id>(w: World<Id>, e: Event<Id>)
    requires Enabled(w, e)
  {
    match e
    case Enqueue(_, seg) => ShortWindow(seg)
    case Redirect(id, now) => w.segs[id].processed || w.segs[id].stop - now <= TEN_MINUTES
    case _ => true
  }

  ghost predicate ShortRun<Id>(w: World<Id>, es: seq<Event<Id>>)
    requires Possible(w, es)
    decreases |es|
  {
    es == [] || (Short(w, es[0]) && ShortRun(Apply(w, es[0]), es[1..]))
  }

  /** No jump and no redirection of the run loses anything. */
  ghost predicate MovesAreSafe<Id>(w: World<Id>, es: seq<Event<Id>>)
    requires Possible(w, es)
    decreases |es|
  {
    es == [] || ((MayLose(w, es[0]) ==> es[0].Tick?) && MovesAreSafe(Apply(w, es[0]), es[1..]))
  }

  lemma TickIsShort<Id>(w: World<Id>, e: Event<Id>)
    requires Inv(w) && Enabled(w, e) && e.Tick? && AllShort(w)
    ensures AllShort(Apply(w, e)) && !MayLose(w, e)
  {
    assert SegmentInv(w.segs[e.id], w.hist.origins[e.id]);
    TickEffect(w, e);
    TickKeepsShort(w.segs[e.id], e.slices, e.clips);
  }

  lemma PlainIsShort<Id>(w: World<Id>, e: Event<Id>)
    requires Inv(w) && Enabled(w, e) && PlainEvent(e) && AllShort(w) && Short(w, e)
    ensures AllShort(Apply(w, e))
  {
  }

  /** While windows are short they stay so, and no tick loses anything. */
  lemma ShortKeeps<Id>(w: World<Id>, e: Event<Id>)
    requires Inv(w) && Enabled(w, e) && AllShort(w) && Short(w, e)
    ensures AllShort(Apply(w, e)) && (e.Tick? ==> !MayLose(w, e))
  {
    if PlainEvent(e) {
      PlainIsShort(w, e);
    } else if QuietEvent(e) {
      QuietEvents(w, e);
    } else {
      TickIsShort(w, e);
    }
  }

  lemma {:induction false} ShortRunIsLossFree<Id>(w: World<Id>, es: seq<Event<Id>>)
    requires Possible(w, es) && AllShort(w) && ShortRun(w, es) && MovesAreSafe(w, es)
    ensures AllShort(Replay(w, es)) && LossFree(w, es)
    decreases |es|
  {
    if es != [] {
      ShortKeeps(w, es[0]);
      ShortRunIsLossFree(Apply(w, es[0]), es[1..]);
    }
  }

  /** With windows and steps of at most ten minutes only jumps and redirections lose
      data: in a run without such ones, everything recorded in the range is planned or
      was on the cloud already. */
  lemma ShortWindowsPlanEverything<Id>(es: seq<Event<Id>>, e: Event<Id>, id: Id, recorded: iset<int>)
    requires Possible(Start(), es) && HonestRun(Start(), es, recorded)
    requires ShortRun(Start(), es) && MovesAreSafe(Start(), es)
    requires var w := Replay(Start(), es);
             && Inv(w) && Enabled(w, e) && HonestEvent(w, e, recorded)
             && Short(w, e) && (MayLose(w, e) ==> e.Tick?) && EndsWell(w, e, id)
    ensures var w' := Apply(Replay(Start(), es), e);
            && id in w'.hist.since
            && forall t :: t in recorded && w'.hist.since[id] <= t < w'.segs[id].Limit() ==> Served(w', id, t)
  {
    ShortRunIsLossFree(Start(), es);
    ShortKeeps(Replay(Start(), es), e);
    EverythingPlanned(es, e, id, recorded);
  }
}
