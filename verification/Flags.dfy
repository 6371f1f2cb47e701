/** What every event does to a segmenter's flags, and when it sends a status report. */
module Flags {
  import opened Periods
  import opened Segments
  import opened Machine
  import opened Runs
  import opened Reports

  // ----------------------------------------------------------------- ended

  /** The segmenter is listed, not canceled, and has this ticket. */
  ghost predicate ListedFor<Id>(w: World<Id>, ticket: string, id: Id)
    requires id in w.segs
  {
    ticket != "" && w.segs[id].ticket == ticket && !w.segs[id].canceled && id in w.list
  }

  /** What ends a segmenter: its cancellation, its skip, or its tick when it comes to the
      end. */
  ghost predicate EndsIt<Id>(w: World<Id>, e: Event<Id>, id: Id)
    requires id in w.segs
  {
    match e
    case Cancel(ticket) => ListedFor(w, ticket, id)
    case Skip(k) => k == id
    case Tick(k, slices, clips) => k == id && TickEnds(w.segs[id], slices, clips)
    case _ => false
  }

  /** What finishes it: the same, if nothing it planned is still to report or the cloud
      check ended it; and the last report of its uploads after its end. */
  ghost predicate FinishesIt<Id>(w: World<Id>, e: Event<Id>, id: Id)
    requires id in w.segs
  {
    var x := w.segs[id];
    match e
    case Cancel(ticket) => ListedFor(w, ticket, id)
    case Skip(k) => k == id
    case Finished(k, _) => k == id && x.processed && x.planned == x.done + x.failed + 1
    case Tick(k, slices, clips) =>
      && k == id
      && (CheckWindow(x, slices).finalized
          || (TickEnds(x, slices, clips) && x.planned == 0 && !TickAdds(x, slices, clips)))
    case _ => false
  }

  lemma {:induction false} CancelFromFlags<Id>(w: World<Id>, ticket: string, i: nat, id: Id)
    requires (forall k :: k in w.list ==> k in w.segs) && i <= |w.list| && id in w.segs
    ensures var w' := CancelFrom(w, ticket, i);
            && id in w'.segs
            && (if w.segs[id].ticket == ticket && !w.segs[id].canceled && id in w.list[i..]
                then w'.segs[id].processed && w'.segs[id].finished && w'.segs[id].canceled
                else w'.segs[id] == w.segs[id])
    decreases |w.list| - i
  {
    if i < |w.list| {
      var k := w.list[i];
      assert w.list[i..] == [k] + w.list[i + 1..];
      if Cancels(w, k, ticket) {
        CancelOneFlags(w, k, id);
        CancelFromFlags(CancelOne(w, k), ticket, i + 1, id);
      } else {
        CancelFromFlags(w, ticket, i + 1, id);
      }
    }
  }

  lemma CancelOneFlags<Id>(w: World<Id>, k: Id, id: Id)
    requires k in w.segs && id in w.segs
    ensures var w' := CancelOne(w, k);
            && w'.list == w.list && w'.segs.Keys == w.segs.Keys
            && (if k == id then w'.segs[id].processed && w'.segs[id].finished && w'.segs[id].canceled
                else w'.segs[id] == w.segs[id])
  {
    var x := w.segs[k].(canceled := true, finished := true, processed := true);
    StatusFacts(x, w.tickets, 100);
    CancelOneIsQuiet(w, k);
    if k != id {
      CancelOneLeavesOthers(w, k, id);
      NotifyLeavesOthers(Put(w, k, x), k, 100, id);
    }
  }

  lemma TickFlags<Id>(w: World<Id>, e: Event<Id>)
    requires Inv(w) && Enabled(w, e) && e.Tick?
    ensures var x, y := w.segs[e.id], Apply(w, e).segs[e.id];
            && (y.processed <==> TickEnds(x, e.slices, e.clips))
            && (!x.finished ==> (y.finished <==> FinishesIt(w, e, e.id)))
  {
    var x := w.segs[e.id];
    var r := TickSegment(x, e.slices, e.clips);
    assert SegmentInv(x, w.hist.origins[e.id]);
    TickEndsIff(x, e.slices, e.clips);
    if !x.finished {
      TickFinishesIff(x, e.slices, e.clips);
    }
    TickKeeps(x, e.slices, e.clips);
    TickAddsOne(x, e.slices, e.clips);
    StatusFacts(r.seg, w.tickets, r.progress);
  }

  /** For every event, an unprocessed segmenter is processed afterwards exactly if the
      event is one that ends it. */
  lemma ProcessedIff<Id>(w: World<Id>, e: Event<Id>, id: Id)
    requires Inv(w) && Enabled(w, e) && id in w.segs && !w.segs[id].processed
    ensures id in Apply(w, e).segs && (Apply(w, e).segs[id].processed <==> EndsIt(w, e, id))
  {
    match e
    case Cancel(ticket) => CancelFlags(w, e, id);
    case Finished(k, ok) => StatusFacts(Counted(w.segs[k], ok), w.tickets, Progress(Counted(w.segs[k], ok)));
    case Skip(k) => StatusFacts(w.segs[k].(processed := true, finished := true), w.tickets, 100);
    case Tick(k, _, _) =>
      TickEffect(w, e);
      TickFlags(w, e);
    case _ =>
  }

  /** For every event, an unfinished segmenter is finished afterwards exactly if the event
      is one that finishes it. */
  lemma FinishedIff<Id>(w: World<Id>, e: Event<Id>, id: Id)
    requires Inv(w) && Enabled(w, e) && id in w.segs && !w.segs[id].finished
    ensures id in Apply(w, e).segs && (Apply(w, e).segs[id].finished <==> FinishesIt(w, e, id))
  {
    match e
    case Cancel(ticket) => CancelFlags(w, e, id);
    case Finished(k, ok) => StatusFacts(Counted(w.segs[k], ok), w.tickets, Progress(Counted(w.segs[k], ok)));
    case Skip(k) => StatusFacts(w.segs[k].(processed := true, finished := true), w.tickets, 100);
    case Tick(k, _, _) =>
      TickEffect(w, e);
      TickFlags(w, e);
    case _ =>
  }

  /** A cancellation ends, finishes and cancels the listed segmenters of its ticket, leaves
      all others alone, and remembers the ticket. */
  lemma CancelFlags<Id>(w: World<Id>, e: Event<Id>, id: Id)
    requires Inv(w) && Enabled(w, e) && e.Cancel? && id in w.segs
    ensures var w' := Apply(w, e);
            && id in w'.segs && (e.ticket != "" ==> e.ticket in w'.tickets)
            && (if ListedFor(w, e.ticket, id)
                then w'.segs[id].processed && w'.segs[id].finished && w'.segs[id].canceled
                else w'.segs[id] == w.segs[id])
  {
    CancelFromFlags(w, e.ticket, 0, id);
    assert w.list[0..] == w.list;
  }

  // --------------------------------------------------------------- reported

  /** How many reports are those of the segmenter. */
  ghost function CountFor<Id>(reports: seq<Entry<Id>>, id: Id): nat {
    if reports == [] then 0
    else (if reports[0].id == id then 1 else 0) + CountFor(reports[1..], id)
  }

  lemma {:induction false} CountConcat<Id>(a: seq<Entry<Id>>, b: seq<Entry<Id>>, id: Id)
    ensures CountFor(a + b, id) == CountFor(a, id) + CountFor(b, id)
    decreases |a|
  {
    if a == [] {
      assert a + b == b;
    } else {
      assert (a + b)[0] == a[0] && (a + b)[1..] == a[1..] + b;
      CountConcat(a[1..], b, id);
    }
  }

  /** What sends a report of the segmenter, if it has a ticket: its cancellation, every
      report of its uploads, its skip, and its tick when it comes to the end with nothing
      planned. */
  ghost predicate Sends<Id>(w: World<Id>, e: Event<Id>, id: Id)
    requires id in w.segs
  {
    var x := w.segs[id];
    x.ticket != "" &&
    match e
    case Cancel(ticket) => ListedFor(w, ticket, id)
    case Finished(k, _) => k == id
    case Skip(k) => k == id
    case Tick(k, slices, clips) =>
      k == id && TickEnds(x, slices, clips) && x.planned == 0 && !TickAdds(x, slices, clips)
    case _ => false
  }

  lemma CountAbsorbed<Id>(w: World<Id>, k: Id, x: Segment, progress: nat, id: Id)
    ensures CountFor(Absorb(w, k, SendStatus(x, w.tickets, progress)).hist.reports, id)
            == CountFor(w.hist.reports, id) + (if k == id && x.ticket != "" then 1 else 0)
  {
    var s := SendStatus(x, w.tickets, progress);
    StatusIsSent(x, w.tickets, progress);
    CountConcat(w.hist.reports, Entries(k, s), id);
    if s.reports != [] {
      assert Entries(k, s) == [Entries(k, s)[0]] && [Entries(k, s)[0]][1..] == [];
    }
  }

  lemma {:induction false} CancelFromCount<Id>(w: World<Id>, ticket: string, i: nat, id: Id)
    requires (forall k :: k in w.list ==> k in w.segs) && i <= |w.list| && id in w.segs && ticket != ""
    ensures CountFor(CancelFrom(w, ticket, i).hist.reports, id)
            == CountFor(w.hist.reports, id)
               + (if w.segs[id].ticket == ticket && !w.segs[id].canceled && id in w.list[i..] then 1 else 0)
    decreases |w.list| - i
  {
    if i < |w.list| {
      var k := w.list[i];
      assert w.list[i..] == [k] + w.list[i + 1..];
      if Cancels(w, k, ticket) {
        CancelOneFlags(w, k, id);
        var x := w.segs[k].(canceled := true, finished := true, processed := true);
        CountAbsorbed(Put(w, k, x), k, x, 100, id);
        CancelFromCount(CancelOne(w, k), ticket, i + 1, id);
      } else {
        CancelFromCount(w, ticket, i + 1, id);
      }
    }
  }

  lemma TickCount<Id>(w: World<Id>, e: Event<Id>, id: Id)
    requires Inv(w) && Enabled(w, e) && e.Tick? && id in w.segs
    ensures CountFor(Apply(w, e).hist.reports, id)
            == CountFor(w.hist.reports, id) + (if Sends(w, e, id) then 1 else 0)
  {
    var x := w.segs[e.id];
    var r := TickSegment(x, e.slices, e.clips);
    assert SegmentInv(x, w.hist.origins[e.id]);
    TickNotifiesIff(x, e.slices, e.clips);
    TickKeepsRest(x, e.slices, e.clips);
    if r.notify {
      var h := w.hist.(plans := w.hist.plans + PlansOf(e.id, r.plans), cloud := w.hist.cloud + e.slices,
                       gaps := w.hist.gaps + r.gaps);
      CountAbsorbed(Put(w, e.id, r.seg).(hist := h), e.id, r.seg, r.progress, id);
    }
  }

  /** For every event and every segmenter: exactly one report of it is sent if the event is
      one that sends it, and none otherwise. */
  lemma SendsIff<Id>(w: World<Id>, e: Event<Id>, id: Id)
    requires Inv(w) && Enabled(w, e) && id in w.segs
    ensures CountFor(Apply(w, e).hist.reports, id)
            == CountFor(w.hist.reports, id) + (if Sends(w, e, id) then 1 else 0)
  {
    match e
    case Cancel(ticket) =>
      if ticket != "" {
        CancelFromCount(w, ticket, 0, id);
        assert w.list[0..] == w.list;
      }
    case Finished(k, ok) => CountAbsorbed(w, k, Counted(w.segs[k], ok), Progress(Counted(w.segs[k], ok)), id);
    case Skip(k) =>
      var x := w.segs[k].(processed := true, finished := true);
      CountAbsorbed(Put(w, k, x), k, x, 100, id);
    case Tick(_, _, _) => TickCount(w, e, id);
    case _ =>
  }

  /** Every report of an upload of a segmenter with a ticket is passed on at once: as
      canceled if the segmenter is, or its ticket was; as done or failed if the segmenter
      has ended and this was the last upload missing; and else as pending, with the share
      of the planned uploads that have reported. */
  lemma UploadIsReported<Id>(w: World<Id>, id: Id, ok: bool)
    requires Inv(w) && Enabled(w, Finished(id, ok)) && w.segs[id].ticket != ""
    ensures var x, w' := w.segs[id], Apply(w, Finished(id, ok));
            var n, canceled := x.done + x.failed + 1, x.canceled || x.ticket in w.tickets;
            && |w'.hist.reports| == |w.hist.reports| + 1 && w.hist.reports <= w'.hist.reports
            && var r := w'.hist.reports[|w.hist.reports|];
            && r.id == id && r.planned == x.planned && r.done == x.done + (if ok then 1 else 0)
            && r.done + r.failed == n
            && (r.status == Canceled <==> canceled)
            && (r.status == Done <==> !canceled && x.processed && x.planned == n && r.done > 0)
            && (r.status == Error <==> !canceled && x.processed && x.planned == n && r.done == 0)
            && (r.status == Pending && x.processed && n < x.planned ==>
                  r.progress * x.planned <= 100 * n < (r.progress + 1) * x.planned)
            && (r.status == Pending && !x.processed ==> r.progress == 0)
  {
    var x, y := w.segs[id], Counted(w.segs[id], ok);
    UploadIsCounted(x, w.tickets, ok);
    StatusIsSent(y, w.tickets, Progress(y));
    if x.processed && x.done + x.failed + 1 < x.planned {
      ShareBelowHundred(Progress(y), x.planned, x.done + x.failed + 1);
    }
  }

  /** The report added to the history, and what it says: canceled if the segmenter is
      then, final if it has ended with all planned uploads reported, and else pending. */
  ghost predicate Adds<Id>(w: World<Id>, w': World<Id>, id: Id, progress: nat) {
    && |w'.hist.reports| == |w.hist.reports| + 1 && w.hist.reports <= w'.hist.reports
    && id in w'.segs
    && var x, r := w'.segs[id], w'.hist.reports[|w.hist.reports|];
    && r.id == id && r.planned == x.planned && r.done == x.done && r.failed == x.failed
    && (r.status == Canceled <==> x.canceled)
    && (r.Final() <==> !x.canceled && x.processed && x.planned == x.done + x.failed)
    && r.progress == if r.Final() || progress > 100 then 100 else progress
  }

  lemma NotifyAdds<Id>(w: World<Id>, id: Id, progress: nat)
    requires id in w.segs && w.segs[id].ticket != ""
    ensures Adds(w, Notify(w, id, progress), id, progress)
  {
    StatusIsSent(w.segs[id], w.tickets, progress);
  }

  /** A skip is reported with full progress. */
  lemma SkipIsReported<Id>(w: World<Id>, id: Id)
    requires Inv(w) && Enabled(w, Skip(id)) && w.segs[id].ticket != ""
    ensures Adds(w, Apply(w, Skip(id)), id, 100)
  {
    var w1 := Put(w, id, w.segs[id].(processed := true, finished := true));
    NotifyAdds(w1, id, 100);
  }

  /** So is a cancellation. */
  lemma CancelIsReported<Id>(w: World<Id>, id: Id)
    requires id in w.segs && w.segs[id].ticket != ""
    ensures Adds(w, CancelOne(w, id), id, 100) && CancelOne(w, id).segs[id].canceled
  {
    var w1 := Put(w, id, w.segs[id].(canceled := true, finished := true, processed := true));
    NotifyAdds(w1, id, 100);
    StatusIsSent(w1.segs[id], w.tickets, 100);
  }

  /** A tick that ends a segmenter with nothing planned is reported with full progress if
      the cloud check ended it, and with none if the step did. */
  lemma TickIsReported<Id>(w: World<Id>, e: Event<Id>)
    requires Inv(w) && Enabled(w, e) && e.Tick? && Sends(w, e, e.id)
    ensures Adds(w, Apply(w, e), e.id, if CheckWindow(w.segs[e.id], e.slices).finalized then 100 else 0)
  {
    var x := w.segs[e.id];
    var r := TickSegment(x, e.slices, e.clips);
    assert SegmentInv(x, w.hist.origins[e.id]);
    TickNotifiesIff(x, e.slices, e.clips);
    TickKeepsRest(x, e.slices, e.clips);
    CheckIsExact(x, e.slices);
    var h := w.hist.(plans := w.hist.plans + PlansOf(e.id, r.plans), cloud := w.hist.cloud + e.slices,
                     gaps := w.hist.gaps + r.gaps);
    NotifyAdds(Put(w, e.id, r.seg).(hist := h), e.id, r.progress);
  }

  lemma ShareBelowHundred(p: nat, whole: nat, part: nat)
    requires part < whole && p * whole <= 100 * part
    ensures p < 100
  {
    if p >= 100 {
      Scaled(p, whole);
    }
  }

  lemma Scaled(p: nat, whole: nat)
    requires p >= 100
    ensures p * whole >= 100 * whole
  {
  }
}
