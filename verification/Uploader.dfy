/** The segmented uploader: an object that keeps a work list of segmenters and
    updates them in place, one scheduled callback at a time. Every method is
    tied to the state machine of module Machine; callbacks of the transport are
    atomic, and what the outside world answers comes in as arguments. */
module Uploader {
  import opened Sorting
  import opened Periods
  import opened Segments
  import opened Listing
  import opened Machine
  import opened Runs
  import opened Adjusting
  import opened Workload

  /** The live segmenters in order, less exactly half of the finished ones that
      lead it. */
  ghost predicate HalfPurged<Id>(segs: map<Id, Segment>, list: seq<Id>, order: seq<Id>, kept: seq<Id>)
    requires Known(segs, list)
  {
    && Known(segs, order) && Ordered(segs, order) && multiset(order) == multiset(Live(segs, list))
    && var half := Count(segs, order[..Leading(segs, order)], true, true) / 2;
       kept == Drop(segs, order, true, true, half) && |order| - |kept| == half
  }

  class Segmenter {
    var begin: int
    var end: int
    var pre: int
    var post: int
    var step: int
    var curStart: int
    var curStop: int
    var processed: bool
    var canceled: bool
    var finished: bool
    var ticket: string
    var planned: nat
    var done: nat
    var failed: nat

    ghost function Range(): Range
      reads this
    {
      Segments.Range(begin, end, pre, post, step)
    }

    ghost function View(): Segment
      reads this
    {
      Segment(Range(), curStart, curStop, processed, canceled, finished, ticket, planned, done, failed)
    }

    /** An event from start to stop; stop is unset while the event goes on. */
    constructor (start: int, stop: int, pre: int, post: int, step: int, ticket: string)
      ensures View() == NewSegment(start, stop, pre, post, step, ticket)
    {
      this.begin, this.end, this.pre, this.post, this.step := start, stop, pre, post, step;
      this.curStart := start - pre;
      var cap := if stop != NULL_TIME then stop + post else MAX_TIME;
      this.curStop := if start + step < cap then start + step else cap;
      this.processed, this.canceled, this.finished := false, false, false;
      this.ticket := ticket;
      this.planned, this.done, this.failed := 0, 0, 0;
    }

    predicate IsOpen()
      reads this
    {
      end == NULL_TIME
    }

    /** The event is to be delivered another way from now on: the segmenter begins
        anew, with the window end it had. */
    method Redirect(now: int)
      modifies this`begin, this`curStart
      ensures View() == Redirected(old(View()), now)
    {
      begin, curStart := now, now;
    }

    method Intersects(r: Segmenter) returns (b: bool)
      ensures b == Range().Intersects(r.Range())
    {
      var e1 := if end != NULL_TIME then end + step else MAX_TIME;
      var e2 := if r.end != NULL_TIME then r.end + r.step else MAX_TIME;
      b := begin - pre <= e2 && e1 >= r.begin - r.pre;
    }
  }

  class Uploader {
    var segmenters: seq<Segmenter>
    var canceledTickets: seq<string>

    /** Every segmenter ever enqueued; callbacks may refer to any of them. */
    ghost var known: set<Segmenter>
    ghost var hist: History<Segmenter>

    ghost function View(): World<Segmenter>
      reads this, known
    {
      World(map s | s in known :: s.View(), segmenters, canceledTickets, hist)
    }

    ghost predicate Valid()
      reads this, known
    {
      Inv(View())
    }

    constructor ()
      ensures Valid() && View() == Start()
    {
      segmenters, canceledTickets, known := [], [], {};
      hist := History(map[], map[], [], [], [], [], {});
    }

    // ------------------------------------------------------ status reports

    method RemoveTicket(ticket: string) returns (found: bool)
      modifies this`canceledTickets
      ensures found == (ticket in old(canceledTickets))
      ensures canceledTickets == Without(old(canceledTickets), ticket)
    {
      var kept := [];
      found := false;
      for i := 0 to |canceledTickets|
        invariant canceledTickets == old(canceledTickets)
        invariant kept + Without(canceledTickets[i..], ticket) == Without(canceledTickets, ticket)
        invariant found == (ticket in canceledTickets[..i])
      {
        var t := canceledTickets[i];
        WithoutNext(canceledTickets, i, ticket, kept);
        if t == ticket {
          found := true;
        } else {
          kept := kept + [t];
        }
      }
      assert canceledTickets[..|canceledTickets|] == canceledTickets;
      canceledTickets := kept;
    }

    /** One segmenter changed and no other. */
    twostate lemma OneChanged(s: Segmenter)
      requires known == old(known) && s in known
      requires forall k :: k in known && k != s ==> unchanged(k)
      ensures View().segs == old(View()).segs[s := s.View()]
    {
    }

    twostate lemma NoneChanged()
      requires known == old(known) && forall k :: k in known ==> unchanged(k)
      ensures View().segs == old(View()).segs
    {
    }

    method Conclude(s: Segmenter, progress: nat) returns (r: Report)
      modifies s`ticket
      ensures (s.View(), r) == Segments.Conclude(old(s.View()), progress)
    {
      var status := Pending;
      var shown := Capped(progress);
      if s.canceled {
        status := Canceled;
      } else if s.processed && s.planned == s.done + s.failed {
        status := if s.done == 0 then Error else Done;
        s.ticket := "";
        shown := 100;
      }
      r := Report(status, shown);
    }

    method SendStatus(s: Segmenter, progress: nat)
      requires s in known
      modifies this`canceledTickets, this`hist, s`canceled, s`ticket
      ensures View() == Notify(old(View()), s, progress)
    {
      ghost var x := s.View();
      ghost var result := Segments.SendStatus(x, canceledTickets, progress);
      if s.ticket != "" {
        var found := RemoveTicket(s.ticket);
        if found {
          s.canceled := true;
        }
        assert s.View() == x.(canceled := x.canceled || found);
        var r := Conclude(s, progress);
        hist := hist.(reports := hist.reports + [Entry(s, r.status, r.progress, s.planned, s.done, s.failed)]);
        assert Entries(s, result) == [Entry(s, r.status, r.progress, s.planned, s.done, s.failed)];
      } else {
        assert hist.reports == hist.reports + Entries(s, result);
      }
      OneChanged(s);
    }

    // ------------------------------------------------------ the two halves of a tick

    /** Goes through the cloud periods, cutting the window of the segmenter. */
    method CutWindow(s: Segmenter, slices: seq<Period>) returns (upload: bool, finalized: bool)
      modifies s`curStart, s`curStop
      ensures Check(s.curStart, s.curStop, upload, finalized) == CheckWindow(old(s.View()), slices)
    {
      ghost var x := s.View();
      upload, finalized := true, false;
      var i := 0;
      while i < |slices| && !finalized
        invariant 0 <= i <= |slices|
        invariant CheckWindow(x, slices) ==
                  if finalized then Check(s.curStart, s.curStop, upload, finalized)
                  else CheckFrom(slices, i, s.curStart, s.curStop, s.step, s.end + s.post, upload)
      {
        var slice := slices[i];
        if slice.Intersects(MakePeriod(s.curStart, s.curStop)) {
          if s.curStart >= slice.begin {
            s.curStart := slice.end;
          } else {
            s.curStop := slice.begin;
          }
          if s.curStop <= s.curStart {
            s.curStop := s.curStart + s.step;
            upload := false;
          }
          if s.curStart > s.end + s.post {
            upload, finalized := false, true;
          }
        }
        i := i + 1;
      }
    }

    method CheckClipSegment(s: Segmenter, slices: seq<Period>) returns (upload: bool)
      requires s in known
      modifies this`canceledTickets, this`hist, s
      ensures upload == CheckWindow(old(s.View()), slices).upload
      ensures View() == CheckWorld(old(View()), s, slices)
    {
      ghost var x := s.View();
      var finalized;
      upload, finalized := CutWindow(s, slices);
      if finalized {
        s.processed, s.finished := true, true;
      }
      hist := hist.(cloud := hist.cloud + slices);
      assert s.View() == Checked(x, slices);
      OneChanged(s);
      if finalized && s.planned == 0 {
        SendStatus(s, 100);
      }
    }

    /** The recorder's first clip lies in the window it was asked for. */
    static ghost predicate Answers(recorder: (int, int) -> seq<Clip>) {
      forall a, b :: RecorderContract(a, b, recorder(a, b))
    }

    /** Its first clip ends behind the start of that window. */
    static ghost predicate Moves(recorder: (int, int) -> seq<Clip>) {
      forall a, b :: recorder(a, b) != [] ==> a < recorder(a, b)[0].stop
    }

    /** Asks the recorder for the window and plans the upload of its first clip. */
    method SegmentStep(s: Segmenter, recorder: (int, int) -> seq<Clip>)
      requires s in known
      modifies this`canceledTickets, this`hist, s
      ensures View() == StepWorld(old(View()), s, recorder(old(s.curStart), Clamp(old(s.View())).stop))
    {
      var clips, gaps, notify := MoveWindow(s, recorder);
      hist := hist.(plans := hist.plans + PlansOf(s, clips), gaps := hist.gaps + gaps);
      OneChanged(s);
      if notify {
        SendStatus(s, 0);
      }
    }

    /** The step's effect on the segmenter: the clip to upload, if any. */
    method MoveWindow(s: Segmenter, recorder: (int, int) -> seq<Clip>)
      returns (plans: seq<Clip>, ghost gaps: seq<Period>, notify: bool)
      modifies s
      ensures var x := old(s.View());
              var clips := recorder(x.start, Clamp(x).stop);
              && StepResult(s.View(), plans, notify) == StepSegment(x, clips)
              && gaps == StepGaps(x, clips)
    {
      ghost var x := s.View();
      plans, gaps, notify := [], StepGaps(x, recorder(x.start, Clamp(x).stop)), false;
      if s.processed || s.canceled {
        return;
      }
      if !s.IsOpen() && s.curStop > s.end + s.post {
        s.curStop := s.end + s.post;
      }
      assert s.View() == Clamp(x);
      if !s.IsOpen() && s.curStart >= s.end + s.post {
        s.processed := true;
        if s.planned == 0 {
          s.finished := true;
          notify := true;
        }
      } else if s.curStart == s.curStop {
        s.curStop := s.curStart + s.step;
      } else {
        var clips := recorder(s.curStart, s.curStop);
        plans, notify := TakeClip(s, if clips == [] then NO_CLIP else clips[0]);
      }
    }

    method TakeClip(s: Segmenter, clip: Clip) returns (plans: seq<Clip>, notify: bool)
      requires !s.processed
      modifies s
      ensures StepResult(s.View(), plans, notify) == Segments.TakeClip(old(s.View()), clip)
    {
      plans, notify := [], false;
      if clip.Usable() && !clip.TooLong() {
        s.curStart := clip.stop;
      } else {
        s.curStart := s.curStop;
      }
      s.curStop := s.curStart + s.step;
      if s.end != NULL_TIME && s.end + s.post <= s.curStart {
        s.processed := true;
      }
      if clip.Usable() {
        s.planned := s.planned + 1;
        plans := [clip];
      } else if s.processed && s.planned == 0 {
        s.finished := true;
        notify := true;
      }
    }

    // ------------------------------------------------------ callbacks from outside

    method CountUpload(s: Segmenter, ok: bool) returns (progress: nat)
      requires s.planned > 0
      modifies s`done, s`failed, s`finished
      ensures s.View() == Counted(old(s.View()), ok) && progress == Progress(s.View())
    {
      if ok {
        s.done := s.done + 1;
      } else {
        s.failed := s.failed + 1;
      }
      s.finished := s.processed && s.planned == s.done + s.failed;
      var reported := s.done + s.failed;
      progress := if s.processed then Percent(reported, s.planned) else 0;
    }

    /** An upload of this segmenter reports back; late or repeated reports count. */
    method OnFinished(s: Segmenter, ok: bool)
      requires Valid() && s in known && s.planned > 0
      modifies this`canceledTickets, this`hist, s
      ensures Valid() && View() == Apply(old(View()), Finished(s, ok))
    {
      ghost var w := View();
      var progress := CountUpload(s, ok);
      OneChanged(s);
      assert View() == Put(w, s, Counted(w.segs[s], ok));
      SendStatus(s, progress);
      FinishedIsNotify(w, s, ok);
      ApplyKeepsInv(w, Finished(s, ok));
    }

    method SegmenterFinalize(s: Segmenter, end: int)
      requires Valid() && s in known
      modifies s`end
      ensures Valid() && View() == Apply(old(View()), Finalize(s, end))
    {
      ghost var w := View();
      s.end := end;
      OneChanged(s);
      ApplyKeepsInv(w, Finalize(s, end));
    }

    /** The first listed segmenter of that ticket that is not canceled yet. */
    method FindByTicket(ticket: string) returns (k: nat)
      requires forall s :: s in segmenters ==> s in known
      ensures k <= |segmenters|
      ensures forall i :: 0 <= i < k ==> !Cancels(View(), segmenters[i], ticket)
      ensures k < |segmenters| ==> Cancels(View(), segmenters[k], ticket)
    {
      k := 0;
      while k < |segmenters| && !(segmenters[k].ticket == ticket && !segmenters[k].canceled)
        invariant k <= |segmenters|
        invariant forall i :: 0 <= i < k ==> !Cancels(View(), segmenters[i], ticket)
      {
        k := k + 1;
      }
    }

    method CancelOne(s: Segmenter)
      requires s in known
      modifies this`canceledTickets, this`hist, s
      ensures View() == Machine.CancelOne(old(View()), s)
    {
      ghost var x := s.View();
      s.canceled := true;
      s.finished, s.processed := true, true;
      assert s.View() == x.(canceled := true, finished := true, processed := true);
      OneChanged(s);
      SendStatus(s, 100);
    }

    /** Cancels the listed segmenters of the ticket, then remembers the ticket for
        those that have already left the list. */
    method CancelByTicket(ticket: string)
      requires Valid()
      modifies this`canceledTickets, this`hist, known
      ensures known == old(known)
      ensures Valid() && View() == Apply(old(View()), Cancel(ticket))
    {
      ghost var w := View();
      CancelAndRemember(ticket);
      ApplyKeepsInv(w, Cancel(ticket));
    }

    method CancelAndRemember(ticket: string)
      requires forall s :: s in segmenters ==> s in known
      modifies this`canceledTickets, this`hist, known
      ensures known == old(known) && View() == CancelWorld(old(View()), ticket)
    {
      if ticket != "" {
        CancelListed(ticket);
        canceledTickets := canceledTickets + [ticket];
        assert View().segs == CancelFrom(old(View()), ticket, 0).segs;
      }
    }

    method CancelListed(ticket: string)
      requires forall s :: s in segmenters ==> s in known
      modifies this`canceledTickets, this`hist, known
      ensures known == old(known)
      ensures View() == CancelFrom(old(View()), ticket, 0)
    {
      ghost var w := View();
      var k := FindByTicket(ticket);
      CancelSkips(w, ticket, 0, k);
      while k < |segmenters|
        invariant known == old(known) && (forall s :: s in segmenters ==> s in known)
        invariant k <= |segmenters| && CanceledUpTo(ticket, k)
        invariant CancelFrom(View(), ticket, k) == CancelFrom(w, ticket, 0)
        decreases |segmenters| - k
      {
        k := CancelNext(ticket, k);
      }
    }

    /** Ahead of position k nothing is left to cancel; at k something is. */
    ghost predicate CanceledUpTo(ticket: string, k: nat)
      requires k <= |segmenters| && forall s :: s in segmenters ==> s in known
      reads this, known
    {
      && (forall i :: 0 <= i < k ==> !Cancels(View(), segmenters[i], ticket))
      && (k < |segmenters| ==> Cancels(View(), segmenters[k], ticket))
    }

    /** Cancels the segmenter at position k and looks for the next one. */
    method CancelNext(ticket: string, k: nat) returns (next: nat)
      requires forall s :: s in segmenters ==> s in known
      requires k < |segmenters| && CanceledUpTo(ticket, k)
      modifies this`canceledTickets, this`hist, known
      ensures known == old(known)
      ensures k < next <= |segmenters| && CanceledUpTo(ticket, next)
      ensures CancelFrom(View(), ticket, next) == CancelFrom(old(View()), ticket, k)
    {
      CancelAt(View(), ticket, k);
      CancelOne(segmenters[k]);
      next := FindByTicket(ticket);
      assert next > k;
      CancelSkips(View(), ticket, k + 1, next);
    }

    /** What adding a segmenter is to the machine: it enters, or is listed once more. */
    ghost function Adding(s: Segmenter): Event<Segmenter>
      reads this, s
    {
      if s in known then Event.Relist(segmenters + [s]) else Event.Enqueue(s, s.View())
    }

    method AddSegmenter(s: Segmenter)
      requires Valid() && (s !in known ==> Fresh(s.View()))
      modifies this
      ensures known == old(known) + {s} && segmenters == old(segmenters) + [s]
      ensures View() == Apply(old(View()), old(Adding(s)))
    {
      ghost var w := View();
      segmenters := segmenters + [s];
      if s !in known {
        known := known + {s};
        hist := hist.(origins := hist.origins[s := s.View().Low()], since := hist.since[s := s.curStart]);
        assert View().segs == w.segs[s := s.View()];
      } else {
        assert known == old(known) + {s};
        NoneChanged();
      }
    }

    /** Adds a segmenter, new or known already, to the work list, which is kept
        ordered by begin. */
    method Enqueue(s: Segmenter) returns (ghost es: seq<Event<Segmenter>>)
      requires Valid() && (s !in known ==> Fresh(s.View()))
      modifies this
      ensures known == old(known) + {s} && s in segmenters
      ensures Valid() && Trace(old(View()), es, View())
      ensures multiset(segmenters) == multiset(old(segmenters)) + multiset{s}
    {
      ghost var w, e := View(), Adding(s);
      AddSegmenter(s);
      TraceOne(w, e);
      es := [e];
      ghost var sorted := Relist();
      TraceStep(w, es, Apply(w, e), Event.Relist(sorted));
      es := es + [Event.Relist(sorted)];
    }

    /** A segmenter the uploader knows begins anew. What it planned lies in the past. */
    method RedirectKnown(s: Segmenter, now: int)
      requires Valid() && s in known && 0 < now && PlansArePast(View(), s, now)
      modifies this`hist, s`begin, s`curStart
      ensures Valid() && View() == Apply(old(View()), Event.Redirect(s, now))
    {
      ghost var w := View();
      hist := hist.(origins := hist.origins[s := Earlier(hist.origins[s], now)],
                    since := hist.since[s := Earlier(hist.since[s], now)],
                    gaps := hist.gaps + RedirectGaps(s.View(), now));
      s.Redirect(now);
      OneChanged(s);
      ApplyKeepsInv(w, Event.Redirect(s, now));
    }

    /** Sorts the work list. */
    method Relist() returns (ghost sorted: seq<Segmenter>)
      modifies this`segmenters
      ensures View() == old(View()).(list := sorted)
      ensures multiset(sorted) == multiset(old(segmenters))
      ensures forall s :: s in sorted <==> s in old(segmenters)
    {
      segmenters := SortSegmenters(segmenters);
      sorted := segmenters;
      MembersOfPermutation(segmenters, old(segmenters));
    }

    static method SortSegmenters(list: seq<Segmenter>) returns (sorted: seq<Segmenter>)
      ensures multiset(sorted) == multiset(list)
      ensures forall s :: s in sorted ==> s in list
      ensures forall i, j :: 0 <= i < j < |sorted| ==> sorted[i].begin <= sorted[j].begin
    {
      var begins := map s | s in list :: s.begin;
      var key := (s: Segmenter) requires s in begins => begins[s];
      sorted := SortBy(list, key);
      forall i, j | 0 <= i < j < |sorted|
        ensures sorted[i].begin <= sorted[j].begin
      {
        assert sorted[i] in list && sorted[j] in list;
        assert key(sorted[i]) <= key(sorted[j]);
      }
    }

    // ------------------------------------------------------ choosing the current one

    /** The map holds the listed segmenters as they are now. */
    static ghost predicate Mirrors(segs: map<Segmenter, Segment>, list: seq<Segmenter>)
      reads list
    {
      forall s :: s in list ==> s in segs && segs[s] == s.View()
    }

    static method RemoveCanceled(list: seq<Segmenter>, ghost segs: map<Segmenter, Segment>)
      returns (live: seq<Segmenter>)
      requires Mirrors(segs, list)
      ensures live == Live(segs, list)
    {
      live := [];
      for i := 0 to |list|
        invariant live + Live(segs, list[i..]) == Live(segs, list)
      {
        LiveNext(segs, list, i, live);
        assert segs[list[i]].canceled == list[i].canceled;
        live := live + (if list[i].canceled then [] else [list[i]]);
      }
    }

    /** The length of the processed front of the list and how many of it finished. */
    static method CountLeading(list: seq<Segmenter>, ghost segs: map<Segmenter, Segment>)
      returns (i: nat, finished: nat)
      requires Mirrors(segs, list)
      ensures i == Leading(segs, list)
      ensures finished == Count(segs, list[..i], true, true)
    {
      i, finished := 0, 0;
      while i < |list| && list[i].processed
        invariant i <= |list|
        invariant i + Leading(segs, list[i..]) == Leading(segs, list)
        invariant finished == Count(segs, list[..i], true, true)
      {
        assert list[i..][0] == list[i] && list[i..][1..] == list[i + 1..];
        CountAppend(segs, list[..i], list[i]);
        assert list[..i + 1] == list[..i] + [list[i]];
        finished := finished + (if list[i].finished then 1 else 0);
        i := i + 1;
      }
    }

    /** Takes the first num removable segmenters off the list. */
    static method Purge(list: seq<Segmenter>, finished: bool, processed: bool, num: nat,
                        ghost segs: map<Segmenter, Segment>)
      returns (kept: seq<Segmenter>)
      requires Mirrors(segs, list)
      ensures kept == Drop(segs, list, finished, processed, num)
    {
      var toFree: nat := if num < |list| then num else |list|;
      DropAtMostAll(segs, list, finished, processed, num);
      if toFree == 0 {
        DropNothing(segs, list, finished, processed);
        return list;
      }
      kept := [];
      for i := 0 to |list|
        invariant kept + Drop(segs, list[i..], finished, processed, toFree)
                  == Drop(segs, list, finished, processed, num)
      {
        var s := list[i];
        DropNext(segs, list, finished, processed, toFree, i, kept);
        assert segs[s] == s.View();
        if ((finished && s.finished) || (!finished && processed && s.processed) || (!finished && !processed))
           && toFree > 0
        {
          toFree := toFree - 1;
        } else {
          kept := kept + [s];
        }
      }
    }

    /** Drops the canceled segmenters, sorts the rest, picks the first unprocessed
        one and frees half of the finished ones ahead of it. */
    static method PickCurrent(list: seq<Segmenter>, ghost segs: map<Segmenter, Segment>)
      returns (cur: Segmenter?, kept: seq<Segmenter>, ghost order: seq<Segmenter>)
      requires Mirrors(segs, list)
      ensures HalfPurged(segs, list, order, kept)
      ensures Selected(list, kept, cur)
    {
      cur := null;
      var live := RemoveCanceled(list, segs);
      var sorted := SortSegmenters(live);
      MembersOfPermutation(sorted, live);
      order := sorted;
      var i, finished := CountLeading(sorted, segs);
      CurrentIsLeast(segs, sorted);
      PurgeSparesCurrent(segs, sorted);
      kept := Purge(sorted, true, true, finished / 2, segs);
      if i < |sorted| {
        cur := sorted[i];
        assert cur == sorted[i..][0];
      }
    }

    method Reselect() returns (cur: Segmenter?, ghost order: seq<Segmenter>)
      requires forall s :: s in segmenters ==> s in known
      modifies this`segmenters
      ensures View() == old(View()).(list := segmenters)
      ensures HalfPurged(View().segs, old(segmenters), order, segmenters)
      ensures Selected(old(segmenters), segmenters, cur)
      ensures if cur == null then AllDone(View()) else Least(View(), cur)
    {
      cur, order := null, [];
      if |segmenters| > 0 {
        var kept;
        cur, kept, order := PickCurrent(segmenters, View().segs);
        segmenters := kept;
      }
      NoneChanged();
      SelectedIsLeast(old(segmenters), cur);
    }

    lemma SelectedIsLeast(before: seq<Segmenter>, cur: Segmenter?)
      requires (forall s :: s in before ==> s in known) && Selected(before, segmenters, cur)
      ensures if cur == null then AllDone(View()) else Least(View(), cur)
    {
    }

    /** The current segmenter is the unprocessed one with the least begin; no
        unfinished segmenter leaves the list unless it was canceled. */
    static ghost predicate Selected(before: seq<Segmenter>, after: seq<Segmenter>, cur: Segmenter?)
      reads before
    {
      && (cur == null <==> forall s :: s in before ==> s.processed || s.canceled)
      && (cur != null ==>
            && cur in before && cur in after && !cur.processed && !cur.canceled
            && forall s :: s in before && !s.processed && !s.canceled ==> cur.begin <= s.begin)
      && (forall s :: s in after ==> s in before && !s.canceled)
      && (forall s :: s in before && !s.canceled && !s.finished ==> s in after)
    }

    method GetCurrent() returns (cur: Segmenter?, ghost order: seq<Segmenter>)
      requires Valid()
      modifies this`segmenters
      ensures Valid() && Steps(old(View()), [Event.Relist(segmenters)], View())
      ensures View() == old(View()).(list := segmenters)
      ensures HalfPurged(View().segs, old(segmenters), order, segmenters)
      ensures Selected(old(segmenters), segmenters, cur)
      ensures if cur == null then AllDone(View()) else Least(View(), cur)
    {
      ghost var w := View();
      cur, order := Reselect();
      StepsOne(w, Event.Relist(segmenters));
    }

    // ------------------------------------------------------ adjusting to what is done

    method JumpOver(s: Segmenter, over: Segmenter)
      requires s in known && over in known && over in hist.since && s != over
      modifies this`hist, s`curStart, s`curStop
      ensures View() == JumpWorld(old(View()), s, over)
      ensures s.curStart == over.curStart
    {
      ghost var x := s.View();
      hist := hist.(gaps := hist.gaps + JumpGaps(View(), s, over),
                    debts := hist.debts + Borrowed(hist.debts, s, over));
      s.curStart := over.curStart;
      s.curStop := s.curStart + s.step;
      OneChanged(s);
    }

    method SkipRest(s: Segmenter)
      requires s in known
      modifies this`canceledTickets, this`hist, s`processed, s`finished, s`canceled, s`ticket
      ensures s.processed && View() == SkipWorld(old(View()), s)
    {
      s.processed, s.finished := true, true;
      OneChanged(s);
      SendStatus(s, 100);
    }

    /** Ends the segmenter if its range is fully handled. */
    method EndIfOutside(s: Segmenter) returns (ended: bool)
      requires s in known
      modifies this`canceledTickets, this`hist, s`processed, s`finished, s`canceled, s`ticket
      ensures ended == Outside(old(s.View()))
      ensures View() == if ended then SkipWorld(old(View()), s) else old(View())
    {
      ended := !s.IsOpen() && s.curStart >= s.end + s.post;
      if ended {
        SkipRest(s);
      }
    }

    /** Moves the segmenter past one other, and ends it if that leaves it nothing. */
    method AdjustTo(cur: Segmenter, r: Segmenter) returns (ended: bool)
      requires Listed(View()) && cur in known && r in known
      modifies this`canceledTickets, this`hist,
               cur`curStart, cur`curStop, cur`processed, cur`finished, cur`canceled, cur`ticket
      ensures (View(), ended) == Adjusting.AdjustTo(old(View()), cur, r)
    {
      ended := false;
      if cur != r && r.processed {
        var meets := cur.Intersects(r);
        if meets && cur.curStart < r.curStart {
          JumpOver(cur, r);
          ended := EndIfOutside(cur);
        }
      }
    }

    method AdjustPass(cur: Segmenter) returns (again: bool)
      requires Listed(View()) && cur in known
      modifies this`canceledTickets, this`hist,
               cur`curStart, cur`curStop, cur`processed, cur`finished, cur`canceled, cur`ticket
      ensures (View(), again) == AdjustFrom(old(View()), cur, 0)
    {
      var i := 0;
      again := false;
      while i < |segmenters| && !again
        invariant i <= |segmenters| && Listed(View())
        invariant AdjustFrom(old(View()), cur, 0) == if again then (View(), true) else AdjustFrom(View(), cur, i)
      {
        again := AdjustNext(cur, i);
        i := i + 1;
      }
    }

    /** One round of the pass. */
    method AdjustNext(cur: Segmenter, i: nat) returns (ended: bool)
      requires Listed(View()) && cur in known && i < |segmenters|
      modifies this`canceledTickets, this`hist,
               cur`curStart, cur`curStop, cur`processed, cur`finished, cur`canceled, cur`ticket
      ensures Listed(View())
      ensures AdjustFrom(old(View()), cur, i) == if ended then (View(), true) else AdjustFrom(View(), cur, i + 1)
    {
      assert segmenters[i] in View().list;
      ended := AdjustTo(cur, segmenters[i]);
    }

    /** One pass for the current segmenter. Answers whether it ended on the way, and
        so the pass must be repeated; if not, it starts no earlier than the position
        of any processed segmenter it intersects. */
    method AdjustCurrentToFinished()
      returns (again: bool, cur: Segmenter?, ghost es: seq<Event<Segmenter>>)
      requires Valid()
      modifies this`segmenters, this`canceledTickets, this`hist, known
      ensures known == old(known) && Steps(old(View()), es, View())
      ensures Unprocessed(View()) <= Unprocessed(old(View()))
      ensures again ==> Unprocessed(View()) < Unprocessed(old(View()))
      ensures !again ==> Ready(View(), cur)
    {
      ghost var w := View();
      again := false;
      ghost var order;
      cur, order := Reselect();
      if cur == null {
        es := [Event.Relist(segmenters)];
        RelistReaches(w, segmenters);
      } else {
        again, es := PassFor(cur, w);
      }
    }

    /** The pass for a segmenter of the list that was just made from w's. */
    method PassFor(s: Segmenter, ghost w: World<Segmenter>) returns (again: bool, ghost es: seq<Event<Segmenter>>)
      requires Inv(w) && View() == w.(list := segmenters) && forall k :: k in segmenters ==> k in w.list
      requires Least(View(), s)
      modifies this`canceledTickets, this`hist, known
      ensures known == old(known) && PassDone(w, es, (View(), again), s)
    {
      es := PassReaches(w, segmenters, s);
      again := AdjustPass(s);
    }

    /** What the passes must come to. */
    static ghost predicate Ready(w: World<Segmenter>, cur: Segmenter?) {
      if cur == null then AllDone(w) else Settled(w, cur)
    }

    /** Repeats the pass until the current segmenter stays unprocessed. */
    method AdjustAll() returns (cur: Segmenter?, ghost es: seq<Event<Segmenter>>)
      requires Valid()
      modifies this`segmenters, this`canceledTickets, this`hist, known
      ensures known == old(known) && Steps(old(View()), es, View())
      ensures Ready(View(), cur)
    {
      ghost var w := View();
      StepsStart(w);
      var again := true;
      cur, es := null, [];
      while again
        invariant known == old(known) && Steps(w, es, View())
        invariant !again ==> Ready(View(), cur)
        decreases Unprocessed(View()), again
      {
        again, cur, es := AdjustOnce(w, es);
      }
    }

    /** One pass more after the events es. */
    method AdjustOnce(ghost w: World<Segmenter>, ghost es: seq<Event<Segmenter>>)
      returns (again: bool, cur: Segmenter?, ghost es': seq<Event<Segmenter>>)
      requires Steps(w, es, View())
      modifies this`segmenters, this`canceledTickets, this`hist, known
      ensures known == old(known) && Steps(w, es', View()) && Unprocessed(View()) <= Unprocessed(old(View()))
      ensures if again then Unprocessed(View()) < Unprocessed(old(View())) else Ready(View(), cur)
    {
      ghost var w1, fs := View(), [];
      again, cur, fs := AdjustCurrentToFinished();
      StepsJoin(w, es, w1, fs, View());
      es' := es + fs;
    }

    // ------------------------------------------------------ the scheduled loop

    static ghost predicate SameCover(a: seq<Period>, b: seq<Period>) {
      forall t :: Covered(a, t) <==> Covered(b, t)
    }

    /** What the cloud lists for a window, merged. */
    static method CloudPeriods(items: seq<Item>) returns (slices: seq<Period>)
      ensures CloudList(slices) && SameCover(slices, items)
    {
      slices := SquashPeriods(items);
    }

    /** One tick on the current segmenter: what the cloud lists for its window is
        merged and skipped, and what the recorder holds there is planned. */
    method TickOn(s: Segmenter, cloud: (int, int) -> seq<Item>, recorder: (int, int) -> seq<Clip>)
      returns (ghost e: Event<Segmenter>)
      requires Valid() && s in known && !s.processed && !s.canceled
      requires Answers(recorder)
      modifies this`canceledTickets, this`hist, s
      ensures Enabled(old(View()), e) && e.Tick? && e.id == s
      ensures Valid() && View() == Apply(old(View()), e)
      ensures SameCover(e.slices, cloud(old(s.curStart), old(s.curStop)))
      ensures Moves(recorder) ==> !Stalled(old(View()), e)
    {
      var items := cloud(s.curStart, s.curStop);
      var slices := CloudPeriods(items);
      NoneChanged();
      e := CheckThenStep(s, slices, recorder);
    }

    method CheckThenStep(s: Segmenter, slices: seq<Period>, recorder: (int, int) -> seq<Clip>)
      returns (ghost e: Event<Segmenter>)
      requires Valid() && s in known && !s.processed && !s.canceled && CloudList(slices)
      requires Answers(recorder)
      modifies this`canceledTickets, this`hist, s
      ensures e.Tick? && e.id == s && e.slices == slices && Enabled(old(View()), e)
      ensures Moves(recorder) ==> !Stalled(old(View()), e)
      ensures Valid() && View() == Apply(old(View()), e)
    {
      ghost var y := Checked(s.View(), slices);
      ghost var clips := recorder(y.start, Clamp(y).stop);
      e := Event.Tick(s, slices, clips);
      TickIsEnabled(View(), s, slices, clips);
      var upload := CheckClipSegment(s, slices);
      if upload {
        assert s.View() == View().segs[s] == y;
        SegmentStep(s, recorder);
      }
    }

    /** Adjusts, then picks the segmenter to tick. It is settled, unless the sort
        arranged two segmenters of the same begin differently the second time. */
    method Choose() returns (s: Segmenter?, ghost es: seq<Event<Segmenter>>)
      requires Valid()
      modifies this`segmenters, this`canceledTickets, this`hist, known
      ensures known == old(known) && Steps(old(View()), es, View())
      ensures if s == null then AllDone(View())
              else Chosen(View(), s) && s in known && !s.processed && !s.canceled
    {
      ghost var w := View();
      var adjusted;
      adjusted, es := AdjustAll();
      ghost var w1 := View();
      s := ChooseAgain(adjusted);
      StepsJoin(w, es, w1, [Event.Relist(segmenters)], View());
      es := es + [Event.Relist(segmenters)];
    }

    method ChooseAgain(ghost adjusted: Segmenter?) returns (s: Segmenter?)
      requires Valid() && Ready(View(), adjusted)
      modifies this`segmenters
      ensures Steps(old(View()), [Event.Relist(segmenters)], View())
      ensures if s == null then AllDone(View()) else Chosen(View(), s) && s in known && !s.processed && !s.canceled
    {
      ghost var w := View();
      ghost var order;
      s, order := GetCurrent();
      if s != null {
        ChosenIsSettled(w, adjusted, s);
      }
    }

    lemma ChosenIsSettled(w: World<Segmenter>, adjusted: Segmenter?, s: Segmenter)
      requires Inv(w) && View() == w.(list := segmenters) && Selected(w.list, segmenters, s) && Least(View(), s)
      requires Ready(w, adjusted)
      ensures Chosen(View(), s)
    {
      assert adjusted != null by {
        assert Waiting(w, s);
      }
      forall k | k in w.list && Waiting(w, k)
        ensures k in segmenters
      {
        assert SegmentInv(w.segs[k], w.hist.origins[k]);
        assert w.segs[k] == View().segs[k] == k.View();
      }
      ChosenUnsettledIff(w, segmenters, adjusted, s);
    }

    /** What the loop may tick. */
    static ghost predicate Chosen(w: World<Segmenter>, s: Segmenter) {
      Least(w, s) && (BeginsAlone(w, s) ==> Settled(w, s))
    }

    /** Nothing is left to tick, or a chosen segmenter is ticked. */
    static ghost predicate Turn(w: World<Segmenter>, tick: seq<Event<Segmenter>>, w': World<Segmenter>) {
      if tick == [] then w' == w && AllDone(w)
      else
        && |tick| == 1 && tick[0].Tick? && Chosen(w, tick[0].id)
        && Inv(w) && Enabled(w, tick[0]) && w' == Apply(w, tick[0])
    }

    method TickChosen(s: Segmenter, cloud: (int, int) -> seq<Item>, recorder: (int, int) -> seq<Clip>)
      returns (ghost tick: seq<Event<Segmenter>>)
      requires Valid() && Chosen(View(), s) && s in known && !s.processed && !s.canceled
      requires Answers(recorder)
      modifies this`canceledTickets, this`hist, known
      ensures known == old(known) && Valid() && tick != [] && Turn(old(View()), tick, View())
      ensures Moves(recorder) ==> !Stalled(old(View()), tick[0])
    {
      ghost var w := View();
      ghost var e := TickOn(s, cloud, recorder);
      tick := [e];
      TurnByTick(w, e, View());
    }

    static lemma TurnByTick(w: World<Segmenter>, e: Event<Segmenter>, w': World<Segmenter>)
      requires Inv(w) && Enabled(w, e) && e.Tick? && Chosen(w, e.id) && w' == Apply(w, e)
      ensures Turn(w, [e], w')
    {
    }

    /** The scheduled loop. It leads, by events of the machine, to a state in which
        it ticks one segmenter; it ticks none only if all are done or canceled. */
    method AsyncLoop(cloud: (int, int) -> seq<Item>, recorder: (int, int) -> seq<Clip>)
      returns (ticked: bool, ghost es: seq<Event<Segmenter>>, ghost before: World<Segmenter>,
               ghost tick: seq<Event<Segmenter>>)
      requires Valid()
      requires Answers(recorder)
      modifies this`segmenters, this`canceledTickets, this`hist, known
      ensures known == old(known) && Valid() && Steps(old(View()), es, before)
      ensures Turn(before, tick, View()) && (ticked <==> tick != [])
      ensures ticked && Moves(recorder) ==> !Stalled(before, tick[0])
    {
      var s;
      s, es := Choose();
      before, tick, ticked := View(), [], false;
      if s != null {
        ticked := true;
        tick := TickChosen(s, cloud, recorder);
      }
    }

    /** The timer runs the loop again and again. If every segmenter has its end set,
        nothing new comes in and no clip is empty, then after no more turns than there
        is work left, and one, all is done. */
    method RunUntilDone(cloud: (int, int) -> seq<Item>, recorder: (int, int) -> seq<Clip>) returns (turns: nat)
      requires Valid() && AllClosed(View()) && Answers(recorder) && Moves(recorder)
      modifies this`segmenters, this`canceledTickets, this`hist, known
      ensures known == old(known) && Valid() && AllDone(View())
      ensures turns <= Work(old(View()).segs) + 1
    {
      turns := 0;
      var ticked := true;
      while ticked
        invariant known == old(known) && Valid() && AllClosed(View())
        invariant if ticked then turns + Work(View().segs) <= Work(old(View()).segs)
                  else turns <= Work(old(View()).segs) + 1 && AllDone(View())
        decreases Work(View().segs), ticked
      {
        ticked := RunOnce(cloud, recorder);
        turns := turns + 1;
      }
    }

    method RunOnce(cloud: (int, int) -> seq<Item>, recorder: (int, int) -> seq<Clip>) returns (ticked: bool)
      requires Valid() && AllClosed(View()) && Answers(recorder) && Moves(recorder)
      modifies this`segmenters, this`canceledTickets, this`hist, known
      ensures known == old(known) && Valid() && AllClosed(View()) && (!ticked ==> AllDone(View()))
      ensures Work(View().segs) + (if ticked then 1 else 0) <= Work(old(View()).segs)
    {
      ghost var w, es, before, tick := View(), [], View(), [];
      ticked, es, before, tick := AsyncLoop(cloud, recorder);
      TurnLeaves(w, es, before, tick, View());
    }

    static lemma TurnLeaves(w: World<Segmenter>, es: seq<Event<Segmenter>>, before: World<Segmenter>,
                            tick: seq<Event<Segmenter>>, after: World<Segmenter>)
      requires Steps(w, es, before) && Turn(before, tick, after) && AllClosed(w)
      requires tick != [] ==> !Stalled(before, tick[0])
      ensures AllClosed(after) && (tick == [] ==> AllDone(after))
      ensures Work(after.segs) + (if tick == [] then 0 else 1) <= Work(w.segs)
    {
      TurnTakesWork(w, es, before, tick);
    }
  }
}
