/** The final report of a synchronization: when it comes, and when it never does. */
module Reports {
  import opened Periods
  import opened Segments
  import opened Machine
  import opened Runs

  // -------------------------------------------------------- what leaves it alone

  /** Nothing happened to this segmenter but a change of its range and position, and
      nothing was reported for it. */
  ghost predicate LeftAlone<Id>(w: World<Id>, w': World<Id>, id: Id) {
    && id in w.segs && id in w'.segs
    && w'.segs[id] == w.segs[id].(range := w'.segs[id].range, start := w'.segs[id].start)
    && w.hist.reports <= w'.hist.reports
    && forall i :: |w.hist.reports| <= i < |w'.hist.reports| ==> w'.hist.reports[i].id != id
  }

  lemma NotifyLeavesOthers<Id>(w: World<Id>, k: Id, progress: nat, id: Id)
    requires k in w.segs && id in w.segs && k != id
    ensures LeftAlone(w, Notify(w, k, progress), id) && Notify(w, k, progress).segs[id] == w.segs[id]
  {
    StatusFacts(w.segs[k], w.tickets, progress);
  }

  lemma CancelOneLeavesOthers<Id>(w: World<Id>, k: Id, id: Id)
    requires k in w.segs && id in w.segs && k != id
    ensures LeftAlone(w, CancelOne(w, k), id) && CancelOne(w, k).list == w.list
    ensures CancelOne(w, k).segs.Keys == w.segs.Keys
  {
    NotifyLeavesOthers(Put(w, k, w.segs[k].(canceled := true, finished := true, processed := true)), k, 100, id);
  }

  lemma {:induction false} CancelLeavesOthers<Id>(w: World<Id>, ticket: string, i: nat, id: Id)
    requires (forall k :: k in w.list ==> k in w.segs) && id in w.segs && w.segs[id].ticket != ticket
    ensures LeftAlone(w, CancelFrom(w, ticket, i), id)
    decreases |w.list| - i
  {
    if i < |w.list| {
      if Cancels(w, w.list[i], ticket) {
        CancelOneLeavesOthers(w, w.list[i], id);
        CancelLeavesOthers(CancelOne(w, w.list[i]), ticket, i + 1, id);
      } else {
        CancelLeavesOthers(w, ticket, i + 1, id);
      }
    }
  }

  /** What can still reach a processed segmenter: a report of one of its uploads,
      or the cancellation of its ticket. */
  ghost predicate Reaches<Id>(e: Event<Id>, id: Id, ticket: string) {
    (e.Finished? && e.id == id) || (e.Cancel? && e.ticket == ticket)
  }

  lemma FinishedLeavesOthers<Id>(w: World<Id>, k: Id, ok: bool, id: Id)
    requires k in w.segs && id in w.segs && k != id && w.segs[k].planned > 0
    ensures LeftAlone(w, Absorb(w, k, UploadFinished(w.segs[k], w.tickets, ok)), id)
  {
    FinishedIsNotify(w, k, ok);
    var y := Counted(w.segs[k], ok);
    NotifyLeavesOthers(Put(w, k, y), k, Progress(y), id);
  }

  lemma TickLeavesOthers<Id>(w: World<Id>, k: Id, slices: seq<Period>, clips: seq<Clip>, id: Id)
    requires k in w.segs && id in w.segs && k != id
    ensures LeftAlone(w, TickWorld(w, k, slices, clips), id)
  {
    var r := TickSegment(w.segs[k], slices, clips);
    StatusFacts(r.seg, w.tickets, r.progress);
  }

  lemma SkipLeavesOthers<Id>(w: World<Id>, k: Id, id: Id)
    requires k in w.segs && id in w.segs && k != id
    ensures LeftAlone(w, SkipWorld(w, k), id)
  {
    NotifyLeavesOthers(Put(w, k, w.segs[k].(processed := true, finished := true)), k, 100, id);
  }

  lemma PlainLeavesAlone<Id>(w: World<Id>, e: Event<Id>, id: Id)
    requires Inv(w) && Enabled(w, e) && PlainEvent(e)
    requires id in w.segs && (w.segs[id].processed || w.segs[id].canceled)
    ensures LeftAlone(w, Apply(w, e), id)
  {
  }

  lemma ProcessedIsLeftAlone<Id>(w: World<Id>, e: Event<Id>, id: Id)
    requires Inv(w) && Enabled(w, e) && id in w.segs && w.segs[id].processed
    requires !Reaches(e, id, w.segs[id].ticket)
    ensures LeftAlone(w, Apply(w, e), id)
  {
    if PlainEvent(e) {
      PlainLeavesAlone(w, e, id);
    } else {
      QuietOrTickLeavesAlone(w, e, id);
    }
  }

  lemma QuietOrTickLeavesAlone<Id>(w: World<Id>, e: Event<Id>, id: Id)
    requires Inv(w) && Enabled(w, e) && id in w.segs && w.segs[id].processed && !PlainEvent(e)
    requires !Reaches(e, id, w.segs[id].ticket)
    ensures LeftAlone(w, Apply(w, e), id)
  {
    match e
    case Cancel(ticket) =>
      if ticket != "" {
        CancelLeavesOthers(w, ticket, 0, id);
      }
    case Finished(k, ok) => FinishedLeavesOthers(w, k, ok, id);
    case Skip(k) => SkipLeavesOthers(w, k, id);
    case Tick(k, slices, clips) => TickLeavesOthers(w, k, slices, clips, id);
    case Relist(_) =>
  }

  // ------------------------------------------------- the report that never comes

  /** A final report of this segmenter was sent on the way. */
  ghost predicate ReportedEnd<Id>(w: World<Id>, w': World<Id>, id: Id) {
    exists i :: |w.hist.reports| <= i < |w'.hist.reports| && w'.hist.reports[i].id == id && w'.hist.reports[i].Final()
  }

  /** Canceled, or ended with as many reports as uploads, or more. */
  predicate NeverFinal(x: Segment) {
    x.canceled || (x.processed && x.planned <= x.done + x.failed)
  }

  /** The state stays hopeless and no final report was sent. */
  ghost predicate StaysHopeless<Id>(w: World<Id>, w': World<Id>, id: Id) {
    && id in w.segs && id in w'.segs && w.hist.reports <= w'.hist.reports
    && (NeverFinal(w.segs[id]) ==> NeverFinal(w'.segs[id]) && !ReportedEnd(w, w', id))
  }

  lemma LeftAloneIsHopeless<Id>(w: World<Id>, w': World<Id>, id: Id)
    requires LeftAlone(w, w', id)
    ensures StaysHopeless(w, w', id)
  {
  }

  lemma HopelessTwice<Id>(a: World<Id>, b: World<Id>, c: World<Id>, id: Id)
    requires StaysHopeless(a, b, id) && StaysHopeless(b, c, id)
    ensures StaysHopeless(a, c, id)
  {
  }

  /** A status report of a segmenter that is canceled, or has not ended with all its
      uploads reported, is not final. */
  lemma NotifyIsHopeless<Id>(w: World<Id>, id: Id, progress: nat)
    requires id in w.segs
    requires w.segs[id].canceled || (w.segs[id].processed && w.segs[id].planned < w.segs[id].done + w.segs[id].failed)
    ensures StaysHopeless(w, Notify(w, id, progress), id)
  {
    StatusFacts(w.segs[id], w.tickets, progress);
    var s := SendStatus(w.segs[id], w.tickets, progress);
    assert forall r :: r in s.reports ==> r.status == Canceled || r.status == Pending;
  }

  lemma {:induction false} CancelIsHopeless<Id>(w: World<Id>, ticket: string, i: nat, id: Id)
    requires (forall k :: k in w.list ==> k in w.segs) && id in w.segs
    ensures StaysHopeless(w, CancelFrom(w, ticket, i), id)
    decreases |w.list| - i
  {
    if i < |w.list| {
      var k := w.list[i];
      if Cancels(w, k, ticket) {
        var w1 := CancelOne(w, k);
        CancelOneIsQuiet(w, k);
        if k == id {
          var w0 := Put(w, id, w.segs[id].(canceled := true, finished := true, processed := true));
          NotifyIsHopeless(w0, id, 100);
          HopelessTwice(w, w0, w1, id);
        } else {
          CancelOneLeavesOthers(w, k, id);
        }
        CancelIsHopeless(w1, ticket, i + 1, id);
        HopelessTwice(w, w1, CancelFrom(w1, ticket, i + 1), id);
      } else {
        CancelIsHopeless(w, ticket, i + 1, id);
      }
    }
  }

  lemma FinishedIsHopeless<Id>(w: World<Id>, id: Id, ok: bool)
    requires id in w.segs && w.segs[id].planned > 0 && NeverFinal(w.segs[id])
    ensures StaysHopeless(w, Absorb(w, id, UploadFinished(w.segs[id], w.tickets, ok)), id)
  {
    FinishedIsNotify(w, id, ok);
    var y := Counted(w.segs[id], ok);
    var w1 := Put(w, id, y);
    NotifyIsHopeless(w1, id, Progress(y));
    HopelessTwice(w, w1, Notify(w1, id, Progress(y)), id);
  }

  lemma SkipIsHopeless<Id>(w: World<Id>, id: Id)
    requires id in w.segs && w.segs[id].canceled
    ensures StaysHopeless(w, SkipWorld(w, id), id)
  {
    var w1 := Put(w, id, w.segs[id].(processed := true, finished := true));
    NotifyIsHopeless(w1, id, 100);
    HopelessTwice(w, w1, SkipWorld(w, id), id);
  }

  /** A segmenter that this event does not name, nor its ticket. */
  lemma HopelessElsewhere<Id>(w: World<Id>, e: Event<Id>, id: Id)
    requires Inv(w) && Enabled(w, e) && id in w.segs && NeverFinal(w.segs[id])
    requires PlainEvent(e) || e.Tick? || e.Relist? || (e.Skip? && e.id != id) || (e.Finished? && e.id != id)
    ensures LeftAlone(w, Apply(w, e), id)
  {
    if PlainEvent(e) {
      PlainLeavesAlone(w, e, id);
    } else {
      match e
      case Finished(k, ok) => FinishedLeavesOthers(w, k, ok, id);
      case Skip(k) => SkipLeavesOthers(w, k, id);
      case Tick(k, slices, clips) => TickLeavesOthers(w, k, slices, clips, id);
      case Relist(_) =>
    }
  }

  lemma HopelessCancel<Id>(w: World<Id>, e: Event<Id>, id: Id)
    requires Inv(w) && Enabled(w, e) && e.Cancel? && id in w.segs && NeverFinal(w.segs[id])
    ensures StaysHopeless(w, Apply(w, e), id)
  {
    if e.ticket != "" {
      CancelIsHopeless(w, e.ticket, 0, id);
    }
  }

  lemma HopelessStep<Id>(w: World<Id>, e: Event<Id>, id: Id)
    requires Inv(w) && Enabled(w, e) && id in w.segs && NeverFinal(w.segs[id])
    ensures StaysHopeless(w, Apply(w, e), id)
  {
    if e.Cancel? {
      HopelessCancel(w, e, id);
    } else if e.Finished? && e.id == id {
      FinishedIsHopeless(w, id, e.ok);
    } else if e.Skip? && e.id == id {
      SkipIsHopeless(w, id);
    } else {
      HopelessElsewhere(w, e, id);
      LeftAloneIsHopeless(w, Apply(w, e), id);
    }
  }

  /** Whatever happens to such a segmenter, its final report never comes. */
  lemma {:induction false} NoFinalReport<Id>(w: World<Id>, es: seq<Event<Id>>, id: Id)
    requires Possible(w, es) && id in w.segs && NeverFinal(w.segs[id])
    ensures StaysHopeless(w, Replay(w, es), id)
    decreases |es|
  {
    if es != [] {
      HopelessStep(w, es[0], id);
      NoFinalReport(Apply(w, es[0]), es[1..], id);
      HopelessTwice(w, Apply(w, es[0]), Replay(w, es), id);
    }
  }

  // ------------------------------------------------------ the report that comes

  /** It has ended, is not canceled, and owes a final report. */
  ghost predicate Owes<Id>(w: World<Id>, id: Id) {
    id in w.segs && w.segs[id].processed && !w.segs[id].canceled && w.segs[id].planned > 0
    && w.segs[id].ticket != "" && w.segs[id].ticket !in w.tickets
  }

  lemma {:induction false} WithoutAbsent(tickets: seq<string>, ticket: string)
    requires ticket !in tickets
    ensures Without(tickets, ticket) == tickets
  {
    if tickets != [] {
      assert tickets[0] in tickets;
      WithoutAbsent(tickets[1..], ticket);
    }
  }

  /** One more upload reports: either that was the last, and the final report is
      sent, or one less is missing. */
  lemma OneReport<Id>(w: World<Id>, id: Id)
    requires Inv(w) && Owes(w, id) && w.segs[id].done + w.segs[id].failed < w.segs[id].planned
    ensures var x, w' := w.segs[id], Apply(w, Finished(id, true));
            && Enabled(w, Finished(id, true)) && w.hist.reports <= w'.hist.reports && id in w'.segs
            && (if x.done + 1 + x.failed == x.planned then ReportedEnd(w, w', id)
                else Owes(w', id) && w'.segs[id].done == x.done + 1
                     && w'.segs[id].failed == x.failed && w'.segs[id].planned == x.planned)
  {
    var x, w' := w.segs[id], Apply(w, Finished(id, true));
    var s := UploadFinished(x, w.tickets, true);
    WithoutAbsent(w.tickets, x.ticket);
    assert w'.hist.reports[|w.hist.reports|] == Entries(id, s)[0];
  }

  lemma {:induction false} ReportsBringTheEnd<Id>(w: World<Id>, id: Id) returns (es: seq<Event<Id>>)
    requires Inv(w) && Owes(w, id) && w.segs[id].done + w.segs[id].failed < w.segs[id].planned
    ensures Possible(w, es) && ReportedEnd(w, Replay(w, es), id)
    decreases w.segs[id].planned - w.segs[id].done - w.segs[id].failed
  {
    var e := Event<Id>.Finished(id, true);
    var x, w1 := w.segs[id], Apply(w, e);
    OneReport(w, id);
    ApplyKeepsInv(w, e);
    if x.done + 1 + x.failed == x.planned {
      TraceOne(w, e);
      es := [e];
    } else {
      var fs := ReportsBringTheEnd(w1, id);
      ReplayKeepsInv(w1, fs);
      TraceOne(w, e);
      TraceJoin(w, [e], w1, fs, Replay(w1, fs));
      es := [e] + fs;
      EndStaysReported(w, w1, Replay(w1, fs), id);
    }
  }

  lemma EndStaysReported<Id>(a: World<Id>, b: World<Id>, c: World<Id>, id: Id)
    requires |a.hist.reports| <= |b.hist.reports| && ReportedEnd(b, c, id)
    ensures ReportedEnd(a, c, id)
  {
    var i :| |b.hist.reports| <= i < |c.hist.reports| && c.hist.reports[i].id == id && c.hist.reports[i].Final();
    assert c.hist.reports[i].id == id;
  }

  /** A run in which the final report comes. */
  ghost predicate RunsToEnd<Id>(w: World<Id>, es: seq<Event<Id>>, id: Id) {
    Possible(w, es) && ReportedEnd(w, Replay(w, es), id)
  }

  /** The final report can still come exactly while fewer uploads have reported
      than were planned. Once they are as many, or more, it never comes, however
      the run goes on. */
  lemma FinalReportComesIff<Id(!new)>(w: World<Id>, id: Id)
    requires Inv(w) && Owes(w, id)
    ensures (exists es :: RunsToEnd(w, es, id)) <==> w.segs[id].done + w.segs[id].failed < w.segs[id].planned
  {
    if w.segs[id].done + w.segs[id].failed < w.segs[id].planned {
      var es := ReportsBringTheEnd(w, id);
      assert RunsToEnd(w, es, id);
    } else {
      forall es | Possible(w, es)
        ensures !RunsToEnd(w, es, id)
      {
        NoFinalReport(w, es, id);
      }
    }
  }

  // ------------------------------------------------------- how it comes to that

  /** What a tick plans: the recorder's first clip, if it is asked for one. */
  predicate TickAdds(x: Segment, slices: seq<Period>, clips: seq<Clip>) {
    CheckWindow(x, slices).upload && Queries(Checked(x, slices)) && clips != []
  }

  /** A segmenter is left owing its final report for ever exactly by a tick that
      ends it when everything it planned has reported at least once, or by a skip
      when more uploads have reported than were planned. */
  ghost predicate MakesMute<Id>(w: World<Id>, e: Event<Id>, id: Id)
    requires id in w.segs
  {
    var x := w.segs[id];
    match e
    case Tick(k, slices, clips) =>
      && k == id && x.ticket != "" && TickEnds(x, slices, clips)
      && 0 < x.planned + (if TickAdds(x, slices, clips) then 1 else 0) <= x.done + x.failed
    case Skip(k) => k == id && x.ticket != "" && x.ticket !in w.tickets && 0 < x.planned < x.done + x.failed
    case _ => false
  }

  /** What becomes of the segmenter itself; the report a tick may send is sent only
      if nothing was planned. */
  lemma TickMutes(x: Segment, slices: seq<Period>, clips: seq<Clip>)
    requires Tickable(x) && TickContract(x, slices, clips)
    ensures var r := TickSegment(x, slices, clips);
            && (r.notify ==> r.seg.planned == 0)
            && (Mute(r.seg) <==>
                  && x.ticket != "" && TickEnds(x, slices, clips)
                  && 0 < x.planned + (if TickAdds(x, slices, clips) then 1 else 0) <= x.done + x.failed)
  {
    TickEndsIff(x, slices, clips);
    TickKeeps(x, slices, clips);
    TickKeepsRest(x, slices, clips);
    TickAddsOne(x, slices, clips);
  }

  lemma TickAddsOne(x: Segment, slices: seq<Period>, clips: seq<Clip>)
    requires Tickable(x) && TickContract(x, slices, clips)
    ensures |TickSegment(x, slices, clips).plans| == if TickAdds(x, slices, clips) then 1 else 0
  {
    CheckIsExact(x, slices);
  }

  /** A tick reports at once exactly if it ends the segmenter with nothing planned. */
  lemma TickNotifiesIff(x: Segment, slices: seq<Period>, clips: seq<Clip>)
    requires Tickable(x) && TickContract(x, slices, clips)
    ensures TickSegment(x, slices, clips).notify <==>
              TickEnds(x, slices, clips) && x.planned == 0 && !TickAdds(x, slices, clips)
  {
    CheckIsExact(x, slices);
  }

  lemma TickMakesMute<Id>(w: World<Id>, e: Event<Id>)
    requires Inv(w) && Enabled(w, e) && e.Tick?
    ensures Mute(Apply(w, e).segs[e.id]) <==> MakesMute(w, e, e.id)
  {
    var x := w.segs[e.id];
    assert SegmentInv(x, w.hist.origins[e.id]);
    TickMutes(x, e.slices, e.clips);
    var r := TickSegment(x, e.slices, e.clips);
    StatusFacts(r.seg, w.tickets, r.progress);
  }

  lemma SkipMakesMute<Id>(w: World<Id>, id: Id)
    requires id in w.segs && !w.segs[id].canceled
    ensures Mute(SkipWorld(w, id).segs[id]) <==> MakesMute(w, Event.Skip(id), id)
  {
    StatusFacts(w.segs[id].(processed := true, finished := true), w.tickets, 100);
  }

  lemma MuteIff<Id>(w: World<Id>, e: Event<Id>, id: Id)
    requires Inv(w) && Enabled(w, e) && id in w.segs && !w.segs[id].processed && !w.segs[id].canceled
    ensures id in Apply(w, e).segs && (Mute(Apply(w, e).segs[id]) <==> MakesMute(w, e, id))
  {
    match e
    case Cancel(_) => StaysUnprocessed(w, e, id);
    case Finished(_, _) => StaysUnprocessed(w, e, id);
    case Skip(k) =>
      if k == id {
        SkipMakesMute(w, id);
      } else {
        SkipLeavesOthers(w, k, id);
      }
    case Tick(k, slices, clips) =>
      if k == id {
        TickMakesMute(w, e);
      } else {
        TickLeavesOthers(w, k, slices, clips, id);
      }
    case _ =>
  }

  /** Neither a cancellation nor a report leaves a segmenter ended and uncanceled. */
  lemma StaysUnprocessed<Id>(w: World<Id>, e: Event<Id>, id: Id)
    requires Inv(w) && Enabled(w, e) && id in w.segs && !w.segs[id].processed && (e.Cancel? || e.Finished?)
    ensures id in Apply(w, e).segs && !Mute(Apply(w, e).segs[id])
  {
    match e
    case Cancel(ticket) =>
      if ticket != "" {
        CancelFromIsQuiet(w, ticket, 0);
      }
    case Finished(k, ok) =>
      StatusFacts(Counted(w.segs[k], ok), w.tickets, Progress(Counted(w.segs[k], ok)));
  }
}
