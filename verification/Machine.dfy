/** The uploader as a state machine over its callbacks, with the history of what
    it planned, reported and passed over. Segmenters are named by an Id; the
    uploader object uses the segmenter references themselves. */
module Machine {
  import opened Periods
  import opened Segments

  /** A status report together with the counters at that moment. */
  datatype Entry<Id> = Entry(id: Id, status: Status, progress: nat, planned: nat, done: nat, failed: nat) {
    predicate Final() {
      status == Done || status == Error
    }
  }

  datatype Plan<Id> = Plan(id: Id, clip: Clip)

  /** origins: the earliest instant each segmenter could come to; since: where it
      entered, or an earlier time it was redirected to; cloud: every period the cloud
      was seen to hold; gaps: ranges a segmenter moved over without accounting for them;
      debts: which segmenter relies on the plans of which, because it jumped over it. */
  datatype History<!Id> = History(
    origins: map<Id, int>, since: map<Id, int>, reports: seq<Entry<Id>>, plans: seq<Plan<Id>>,
    cloud: seq<Period>, gaps: seq<Period>, debts: set<(Id, Id)>)

  datatype World<!Id> = World(segs: map<Id, Segment>, list: seq<Id>, tickets: seq<string>, hist: History<Id>)

  datatype Event<Id> =
    | Enqueue(id: Id, seg: Segment)
    | Redirect(id: Id, now: int)
    | Finalize(id: Id, end: int)
    | Cancel(ticket: string)
    | Finished(id: Id, ok: bool)
    | Relist(list: seq<Id>)
    | Jump(id: Id, over: Id)
    | Skip(id: Id)
    | Tick(id: Id, slices: seq<Period>, clips: seq<Clip>)

  // ------------------------------------------------------------ transitions

  ghost function Put<Id>(w: World<Id>, id: Id, x: Segment): World<Id> {
    w.(segs := w.segs[id := x])
  }

  ghost function Entries<Id>(id: Id, s: StatusResult): seq<Entry<Id>> {
    seq(|s.reports|, i requires 0 <= i < |s.reports| =>
      Entry(id, s.reports[i].status, s.reports[i].progress, s.seg.planned, s.seg.done, s.seg.failed))
  }

  ghost function PlansOf<Id>(id: Id, clips: seq<Clip>): (plans: seq<Plan<Id>>)
    ensures |plans| == |clips| && forall i :: 0 <= i < |clips| ==> plans[i] == Plan(id, clips[i])
  {
    seq(|clips|, i requires 0 <= i < |clips| => Plan(id, clips[i]))
  }

  /** Takes over the outcome of a status report of the given segmenter. */
  ghost function Absorb<Id>(w: World<Id>, id: Id, s: StatusResult): World<Id> {
    Put(w, id, s.seg).(tickets := s.tickets, hist := w.hist.(reports := w.hist.reports + Entries(id, s)))
  }

  ghost function Notify<Id>(w: World<Id>, id: Id, progress: nat): World<Id>
    requires id in w.segs
  {
    Absorb(w, id, SendStatus(w.segs[id], w.tickets, progress))
  }

  lemma FinishedIsNotify<Id>(w: World<Id>, id: Id, ok: bool)
    requires id in w.segs && w.segs[id].planned > 0
    ensures Absorb(w, id, UploadFinished(w.segs[id], w.tickets, ok))
            == Notify(Put(w, id, Counted(w.segs[id], ok)), id, Progress(Counted(w.segs[id], ok)))
  {
    var y := Counted(w.segs[id], ok);
    var s := UploadFinished(w.segs[id], w.tickets, ok);
    assert Put(Put(w, id, y), id, s.seg).segs == Put(w, id, s.seg).segs;
  }

  ghost predicate Cancels<Id>(w: World<Id>, id: Id, ticket: string)
    requires id in w.segs
  {
    w.segs[id].ticket == ticket && !w.segs[id].canceled
  }

  ghost function CancelOne<Id>(w: World<Id>, id: Id): World<Id>
    requires id in w.segs
  {
    Notify(Put(w, id, w.segs[id].(canceled := true, finished := true, processed := true)), id, 100)
  }

  /** Cancels the listed segmenters of that ticket, from position i on. */
  ghost function CancelFrom<Id>(w: World<Id>, ticket: string, i: nat): World<Id>
    requires forall id :: id in w.list ==> id in w.segs
    decreases |w.list| - i
  {
    if i >= |w.list| then w
    else if Cancels(w, w.list[i], ticket) then CancelFrom(CancelOne(w, w.list[i]), ticket, i + 1)
    else CancelFrom(w, ticket, i + 1)
  }

  ghost function TickWorld<Id>(w: World<Id>, id: Id, slices: seq<Period>, clips: seq<Clip>): World<Id>
    requires id in w.segs
  {
    var r := TickSegment(w.segs[id], slices, clips);
    var h := w.hist.(plans := w.hist.plans + PlansOf(id, r.plans), cloud := w.hist.cloud + slices, gaps := w.hist.gaps + r.gaps);
    var w' := Put(w, id, r.seg).(hist := h);
    if r.notify then Notify(w', id, r.progress) else w'
  }

  /** The first half of a tick: the check against the cloud. */
  ghost function CheckWorld<Id>(w: World<Id>, id: Id, slices: seq<Period>): World<Id>
    requires id in w.segs
  {
    var y := Checked(w.segs[id], slices);
    var w' := Put(w, id, y).(hist := w.hist.(cloud := w.hist.cloud + slices));
    if CheckWindow(w.segs[id], slices).finalized && y.planned == 0 then Notify(w', id, 100) else w'
  }

  /** The second half: the step, when the check let it through. */
  ghost function StepWorld<Id>(w: World<Id>, id: Id, clips: seq<Clip>): World<Id>
    requires id in w.segs
  {
    var r := StepSegment(w.segs[id], clips);
    var h := w.hist.(plans := w.hist.plans + PlansOf(id, r.plans), gaps := w.hist.gaps + StepGaps(w.segs[id], clips));
    var w' := Put(w, id, r.seg).(hist := h);
    if r.notify then Notify(w', id, 0) else w'
  }

  lemma TickIsCheckThenStep<Id>(w: World<Id>, id: Id, slices: seq<Period>, clips: seq<Clip>)
    requires id in w.segs && Tickable(w.segs[id]) && CloudList(slices)
    ensures TickWorld(w, id, slices, clips)
            == if CheckWindow(w.segs[id], slices).upload then StepWorld(CheckWorld(w, id, slices), id, clips)
               else CheckWorld(w, id, slices)
  {
    CheckIsExact(w.segs[id], slices);
    var w1 := CheckWorld(w, id, slices);
    if CheckWindow(w.segs[id], slices).upload {
      var y := Checked(w.segs[id], slices);
      var r := StepSegment(y, clips);
      assert w1.segs[id] == y && Put(w1, id, r.seg).segs == Put(w, id, r.seg).segs;
    } else {
      assert w.hist.plans + [] == w.hist.plans && w.hist.gaps + [] == w.hist.gaps;
    }
  }

  /** Moving over another segmenter's range leaves a gap when that one started later. */
  ghost function JumpGaps<Id>(w: World<Id>, id: Id, over: Id): seq<Period>
    requires id in w.segs && over in w.segs && over in w.hist.since
  {
    if w.segs[id].start < w.hist.since[over]
    then [Period(w.segs[id].start, Earlier(w.hist.since[over], w.segs[over].start))] else []
  }

  /** Jumping over a segmenter is relying on its plans and on those it relies on. */
  ghost function Borrowed<Id>(debts: set<(Id, Id)>, id: Id, over: Id): set<(Id, Id)> {
    {(id, over)} + set d | d in debts && d.0 == over :: (id, d.1)
  }

  function Earlier(a: int, b: int): int {
    if a < b then a else b
  }

  /** A segmenter moves on to the position of one that is processed. */
  ghost function JumpWorld<Id>(w: World<Id>, id: Id, over: Id): World<Id>
    requires id in w.segs && over in w.segs && over in w.hist.since
  {
    var x, pos := w.segs[id], w.segs[over].start;
    Put(w, id, x.(start := pos, stop := pos + x.range.step))
    .(hist := w.hist.(gaps := w.hist.gaps + JumpGaps(w, id, over),
                      debts := w.hist.debts + Borrowed(w.hist.debts, id, over)))
  }

  /** A segmenter whose range is fully handled ends. */
  ghost function SkipWorld<Id>(w: World<Id>, id: Id): World<Id>
    requires id in w.segs
  {
    Notify(Put(w, id, w.segs[id].(processed := true, finished := true)), id, 100)
  }

  /** Beginning anew at a later time passes over what lies between. */
  function RedirectGaps(x: Segment, now: int): seq<Period> {
    if x.start < now then [Period(x.start, now)] else []
  }

  /** A segmenter begins anew; what it can still come to starts no later. */
  ghost function RedirectWorld<Id>(w: World<Id>, id: Id, now: int): World<Id>
    requires id in w.segs && id in w.hist.origins && id in w.hist.since
  {
    Put(w, id, Redirected(w.segs[id], now))
    .(hist := w.hist.(origins := w.hist.origins[id := Earlier(w.hist.origins[id], now)],
                      since := w.hist.since[id := Earlier(w.hist.since[id], now)],
                      gaps := w.hist.gaps + RedirectGaps(w.segs[id], now)))
  }

  /** Everything the segmenter has planned so far is in the past. */
  ghost predicate PlansArePast<Id>(w: World<Id>, id: Id, now: int) {
    forall i :: 0 <= i < |w.hist.plans| && w.hist.plans[i].id == id ==> w.hist.plans[i].clip.stop <= now
  }

  ghost predicate Enabled<Id>(w: World<Id>, e: Event<Id>) {
    match e
    case Enqueue(id, seg) => id !in w.segs && Fresh(seg)
    case Redirect(id, now) => id in w.segs && 0 < now && PlansArePast(w, id, now)
    case Finalize(id, _) => id in w.segs
    case Cancel(_) => true
    case Finished(id, _) => id in w.segs && w.segs[id].planned > 0
    case Relist(list) => forall id :: id in list ==> id in w.segs
    case Jump(id, over) =>
      && id in w.segs && over in w.segs && id != over
      && !w.segs[id].processed && !w.segs[id].canceled && w.segs[over].processed
      && w.segs[id].range.Intersects(w.segs[over].range) && w.segs[id].start < w.segs[over].start
    case Skip(id) => id in w.segs && !w.segs[id].processed && Outside(w.segs[id])
    case Tick(id, slices, clips) =>
      && id in w.segs && !w.segs[id].processed && !w.segs[id].canceled
      && TickContract(w.segs[id], slices, clips)
  }

  /** Cancels the listed segmenters of the ticket and remembers the ticket. */
  ghost function CancelWorld<Id>(w: World<Id>, ticket: string): World<Id>
    requires forall id :: id in w.list ==> id in w.segs
  {
    if ticket == "" then w
    else var w' := CancelFrom(w, ticket, 0); w'.(tickets := w'.tickets + [ticket])
  }

  ghost function Apply<Id>(w: World<Id>, e: Event<Id>): World<Id>
    requires Inv(w) && Enabled(w, e)
  {
    match e
    case Enqueue(id, seg) =>
      Put(w, id, seg).(list := w.list + [id],
                       hist := w.hist.(origins := w.hist.origins[id := seg.Low()],
                                       since := w.hist.since[id := seg.start]))
    case Redirect(id, now) => RedirectWorld(w, id, now)
    case Finalize(id, end) => Put(w, id, w.segs[id].(range := w.segs[id].range.(end := end)))
    case Cancel(ticket) => CancelWorld(w, ticket)
    case Finished(id, ok) => Absorb(w, id, UploadFinished(w.segs[id], w.tickets, ok))
    case Relist(list) => w.(list := list)
    case Jump(id, over) => JumpWorld(w, id, over)
    case Skip(id) => SkipWorld(w, id)
    case Tick(id, slices, clips) => TickWorld(w, id, slices, clips)
  }

  // -------------------------------------------------------------- invariant

  ghost predicate SegmentInv(x: Segment, origin: int) {
    (x.finished ==> x.processed) && 0 < x.range.step && 0 < origin <= x.Low()
  }

  ghost predicate SegmentsInv<Id>(w: World<Id>) {
    && w.segs.Keys == w.hist.origins.Keys == w.hist.since.Keys
    && (forall id :: id in w.list ==> id in w.segs)
    && (forall id :: id in w.segs ==> SegmentInv(w.segs[id], w.hist.origins[id]))
  }

  /** What each segmenter has planned lies behind its position. */
  ghost predicate PlanInv<Id>(w: World<Id>, p: Plan<Id>) {
    p.id in w.segs && p.id in w.hist.origins
    && w.hist.origins[p.id] <= p.clip.start <= p.clip.stop <= w.segs[p.id].Low()
  }

  ghost predicate PlansInv<Id>(w: World<Id>) {
    && (forall i :: 0 <= i < |w.hist.plans| ==> PlanInv(w, w.hist.plans[i]))
    && NoDoubleUpload(w.hist.plans)
  }

  /** The clips of one segmenter are planned in order and do not overlap. */
  ghost predicate NoDoubleUpload<Id>(plans: seq<Plan<Id>>) {
    forall i, j :: 0 <= i < j < |plans| && plans[i].id == plans[j].id ==> plans[i].clip.stop <= plans[j].clip.start
  }

  /** A final report is sent once everything planned has reported, and the
      segmenter plans nothing afterwards. */
  ghost predicate EntryInv<Id>(w: World<Id>, r: Entry<Id>) {
    && r.id in w.segs
    && (r.Final() ==>
          && w.segs[r.id].ticket == "" && w.segs[r.id].processed && w.segs[r.id].planned == r.planned
          && r.planned == r.done + r.failed && (r.status == Done <==> r.done > 0))
    && (r.status == Canceled ==> w.segs[r.id].canceled)
  }

  /** Pending reports, then either one final report and silence, or only
      cancellation reports. */
  ghost predicate ReportProtocol<Id>(reports: seq<Entry<Id>>) {
    forall i, j :: 0 <= i < j < |reports| && reports[i].id == reports[j].id ==>
                     !reports[i].Final() && (reports[i].status == Canceled ==> reports[j].status == Canceled)
  }

  ghost predicate ReportsInv<Id>(w: World<Id>) {
    && (forall i :: 0 <= i < |w.hist.reports| ==> EntryInv(w, w.hist.reports[i]))
    && ReportProtocol(w.hist.reports)
  }

  ghost predicate Inv<Id>(w: World<Id>) {
    SegmentsInv(w) && PlansInv(w) && ReportsInv(w)
  }

  /** How one segmenter may change from one state to a later one. */
  ghost predicate Evolves(x: Segment, y: Segment) {
    && (x.processed ==> y.processed && y.planned == x.planned)
    && (x.canceled ==> y.canceled)
    && (x.ticket == "" ==> y.ticket == "")
  }

  /** The same without coming to an instant it had already left behind. */
  ghost predicate Advances(x: Segment, y: Segment) {
    Evolves(x, y) && x.Low() <= y.Low()
  }

  lemma PutKeeps<Id>(w: World<Id>, id: Id, x: Segment)
    requires Inv(w) && id in w.segs
    requires Advances(w.segs[id], x) && SegmentInv(x, w.hist.origins[id])
    ensures Inv(Put(w, id, x))
  {
    var w' := Put(w, id, x);
    forall i | 0 <= i < |w.hist.plans|
      ensures PlanInv(w', w'.hist.plans[i])
    {
      assert PlanInv(w, w.hist.plans[i]);
    }
    forall i | 0 <= i < |w.hist.reports|
      ensures EntryInv(w', w'.hist.reports[i])
    {
      assert EntryInv(w, w.hist.reports[i]);
    }
  }

  /** What a report says about the segmenter it is sent for. */
  ghost predicate Truthful(x: Segment, y: Segment, status: Status) {
    && x.ticket != ""
    && (status == Done || status == Error ==>
          y.ticket == "" && x.processed && x.AllReported() && (status == Done <==> x.done > 0))
    && (status == Canceled <==> y.canceled)
  }

  lemma StatusFacts(x: Segment, tickets: seq<string>, progress: nat)
    ensures var s := SendStatus(x, tickets, progress);
            && s.seg == x.(canceled := s.seg.canceled, ticket := s.seg.ticket)
            && (x.canceled ==> s.seg.canceled) && (x.ticket == "" ==> s.seg == x && s.reports == [])
            && |s.reports| <= 1 && (forall r :: r in s.reports ==> Truthful(x, s.seg, r.status))
  {
  }

  lemma AppendEntryKeeps<Id>(w: World<Id>, x: Segment, r: Entry<Id>)
    requires Inv(w) && r.id in w.segs && Truthful(x, w.segs[r.id], r.status)
    requires forall i :: 0 <= i < |w.hist.reports| && w.hist.reports[i].id == r.id ==>
                           !w.hist.reports[i].Final() && (w.hist.reports[i].status == Canceled ==> x.canceled)
    requires x.canceled ==> w.segs[r.id].canceled
    requires x.processed == w.segs[r.id].processed
    requires r.planned == x.planned == w.segs[r.id].planned && r.done == x.done && r.failed == x.failed
    ensures ReportsInv(w.(hist := w.hist.(reports := w.hist.reports + [r])))
  {
    var rs := w.hist.reports + [r];
    var w' := w.(hist := w.hist.(reports := rs));
    forall i | 0 <= i < |rs|
      ensures EntryInv(w', rs[i])
    {
      if i < |w.hist.reports| {
        assert EntryInv(w, w.hist.reports[i]);
      }
    }
  }

  /** A report of any segmenter keeps the protocol. */
  lemma AbsorbKeeps<Id>(w: World<Id>, id: Id, x: Segment, progress: nat)
    requires Inv(w) && id in w.segs
    requires Advances(w.segs[id], x) && SegmentInv(x, w.hist.origins[id])
    ensures Inv(Absorb(w, id, SendStatus(x, w.tickets, progress)))
  {
    var s := SendStatus(x, w.tickets, progress);
    StatusFacts(x, w.tickets, progress);
    PutKeeps(w, id, s.seg);
    var w1, w' := Put(w, id, s.seg), Absorb(w, id, s);
    PlansElsewhere(w1, w');
    if s.reports == [] {
      assert w'.hist.reports == w1.hist.reports;
      ReportsElsewhere(w1, w');
    } else {
      var r := Entries(id, s)[0];
      assert Entries(id, s) == [r] && s.reports[0] in s.reports;
      forall i | 0 <= i < |w.hist.reports| && w.hist.reports[i].id == id
        ensures !w.hist.reports[i].Final() && (w.hist.reports[i].status == Canceled ==> x.canceled)
      {
        assert EntryInv(w, w.hist.reports[i]);
      }
      AppendEntryKeeps(w1, x, r);
      ReportsElsewhere(w1.(hist := w1.hist.(reports := w1.hist.reports + [r])), w');
    }
  }

  /** The plans' invariant depends on the segmenters, origins and plans only. */
  lemma PlansElsewhere<Id>(w: World<Id>, w': World<Id>)
    requires PlansInv(w) && w'.segs == w.segs && w'.hist.origins == w.hist.origins && w'.hist.plans == w.hist.plans
    ensures PlansInv(w')
  {
    forall i | 0 <= i < |w'.hist.plans|
      ensures PlanInv(w', w'.hist.plans[i])
    {
      assert PlanInv(w, w.hist.plans[i]);
    }
  }

  lemma ReportsElsewhere<Id>(w: World<Id>, w': World<Id>)
    requires ReportsInv(w) && w'.segs == w.segs && w'.hist.reports == w.hist.reports
    ensures ReportsInv(w')
  {
    forall i | 0 <= i < |w'.hist.reports|
      ensures EntryInv(w', w'.hist.reports[i])
    {
      assert EntryInv(w, w.hist.reports[i]);
    }
  }

  lemma NotifyKeeps<Id>(w: World<Id>, id: Id, progress: nat)
    requires Inv(w) && id in w.segs
    ensures Inv(Notify(w, id, progress))
  {
    AbsorbKeeps(w, id, w.segs[id], progress);
  }

  // ------------------------------------------- every event keeps the invariant

  lemma EnqueueKeeps<Id>(w: World<Id>, e: Event<Id>)
    requires Inv(w) && Enabled(w, e) && e.Enqueue?
    ensures Inv(Apply(w, e))
  {
    var w' := Apply(w, e);
    forall i | 0 <= i < |w'.hist.plans|
      ensures PlanInv(w', w'.hist.plans[i])
    {
      assert PlanInv(w, w.hist.plans[i]);
    }
    forall i | 0 <= i < |w'.hist.reports|
      ensures EntryInv(w', w'.hist.reports[i])
    {
      assert EntryInv(w, w.hist.reports[i]);
    }
  }

  lemma RedirectKeeps<Id>(w: World<Id>, e: Event<Id>)
    requires Inv(w) && Enabled(w, e) && e.Redirect?
    ensures Inv(Apply(w, e))
  {
    var w' := Apply(w, e);
    assert SegmentInv(w.segs[e.id], w.hist.origins[e.id]);
    forall i | 0 <= i < |w'.hist.plans|
      ensures PlanInv(w', w'.hist.plans[i])
    {
      assert PlanInv(w, w.hist.plans[i]);
    }
    forall i | 0 <= i < |w'.hist.reports|
      ensures EntryInv(w', w'.hist.reports[i])
    {
      assert EntryInv(w, w.hist.reports[i]);
    }
  }

  lemma CancelOneKeeps<Id>(w: World<Id>, id: Id)
    requires Inv(w) && id in w.segs
    ensures Inv(CancelOne(w, id)) && CancelOne(w, id).list == w.list
  {
    var x := w.segs[id].(canceled := true, finished := true, processed := true);
    PutKeeps(w, id, x);
    NotifyKeeps(Put(w, id, x), id, 100);
  }

  lemma {:induction false} CancelFromKeeps<Id>(w: World<Id>, ticket: string, i: nat)
    requires Inv(w)
    ensures Inv(CancelFrom(w, ticket, i))
    decreases |w.list| - i
  {
    if i < |w.list| {
      if Cancels(w, w.list[i], ticket) {
        CancelOneKeeps(w, w.list[i]);
        CancelFromKeeps(CancelOne(w, w.list[i]), ticket, i + 1);
      } else {
        CancelFromKeeps(w, ticket, i + 1);
      }
    }
  }

  lemma CancelKeeps<Id>(w: World<Id>, e: Event<Id>)
    requires Inv(w) && Enabled(w, e) && e.Cancel?
    ensures Inv(Apply(w, e))
  {
    if e.ticket != "" {
      CancelFromKeeps(w, e.ticket, 0);
      var w1 := CancelFrom(w, e.ticket, 0);
      PlansElsewhere(w1, Apply(w, e));
      ReportsElsewhere(w1, Apply(w, e));
    }
  }

  lemma FinishedKeeps<Id>(w: World<Id>, e: Event<Id>)
    requires Inv(w) && Enabled(w, e) && e.Finished?
    ensures Inv(Apply(w, e))
  {
    var z := Counted(w.segs[e.id], e.ok);
    AbsorbKeeps(w, e.id, z, Progress(z));
  }

  lemma JumpKeeps<Id>(w: World<Id>, e: Event<Id>)
    requires Inv(w) && Enabled(w, e) && e.Jump?
    ensures Inv(Apply(w, e))
  {
    var x, pos := w.segs[e.id], w.segs[e.over].start;
    var w1 := Put(w, e.id, x.(start := pos, stop := pos + x.range.step));
    assert SegmentInv(w.segs[e.over], w.hist.origins[e.over]);
    PutKeeps(w, e.id, w1.segs[e.id]);
    PlansElsewhere(w1, Apply(w, e));
    ReportsElsewhere(w1, Apply(w, e));
  }

  lemma SkipKeeps<Id>(w: World<Id>, e: Event<Id>)
    requires Inv(w) && Enabled(w, e) && e.Skip?
    ensures Inv(Apply(w, e))
  {
    var x := w.segs[e.id].(processed := true, finished := true);
    PutKeeps(w, e.id, x);
    NotifyKeeps(Put(w, e.id, x), e.id, 100);
  }

  /** A tick's clip starts where nothing of that segmenter was planned before. */
  lemma TickPlansKeep<Id>(w: World<Id>, w1: World<Id>, id: Id, x: Segment, clips: seq<Clip>)
    requires Inv(w) && Inv(w1) && id in w.segs && w1 == Put(w, id, x)
    requires |clips| <= 1 && forall c :: c in clips ==> w.segs[id].Low() <= c.start <= c.stop <= x.Low()
    ensures PlansInv(w1.(hist := w1.hist.(plans := w1.hist.plans + PlansOf(id, clips))))
  {
    var ps := w.hist.plans + PlansOf(id, clips);
    var w' := w1.(hist := w1.hist.(plans := ps));
    assert SegmentInv(w.segs[id], w.hist.origins[id]);
    forall i | 0 <= i < |ps|
      ensures PlanInv(w', ps[i])
    {
      if i < |w.hist.plans| {
        assert PlanInv(w1, w.hist.plans[i]);
      } else {
        assert clips[i - |w.hist.plans|] in clips;
      }
    }
    forall i, j | 0 <= i < j < |ps| && ps[i].id == ps[j].id
      ensures ps[i].clip.stop <= ps[j].clip.start
    {
      if j >= |w.hist.plans| {
        assert clips[j - |w.hist.plans|] in clips;
        assert PlanInv(w, w.hist.plans[i]);
      }
    }
  }

  lemma TickKeepsInv<Id>(w: World<Id>, e: Event<Id>)
    requires Inv(w) && Enabled(w, e) && e.Tick?
    ensures Inv(Apply(w, e))
  {
    var x := w.segs[e.id];
    var r := TickSegment(x, e.slices, e.clips);
    assert SegmentInv(x, w.hist.origins[e.id]);
    TickKeeps(x, e.slices, e.clips);
    TickKeepsRest(x, e.slices, e.clips);
    var w1 := Put(w, e.id, r.seg);
    PutKeeps(w, e.id, r.seg);
    TickPlansKeep(w, w1, e.id, r.seg, r.plans);
    var plans := PlansOf(e.id, r.plans);
    var h := w.hist.(plans := w.hist.plans + plans,
                     cloud := w.hist.cloud + e.slices, gaps := w.hist.gaps + r.gaps);
    var w2 := w1.(hist := h);
    PlansElsewhere(w1.(hist := w1.hist.(plans := w1.hist.plans + plans)), w2);
    ReportsElsewhere(w1, w2);
    assert Inv(w2);
    if r.notify {
      NotifyKeeps(w2, e.id, r.progress);
    }
  }

  lemma ApplyKeepsInv<Id>(w: World<Id>, e: Event<Id>)
    requires Inv(w) && Enabled(w, e)
    ensures Inv(Apply(w, e))
  {
    match e
    case Enqueue(_, _) => EnqueueKeeps(w, e);
    case Redirect(_, _) => RedirectKeeps(w, e);
    case Finalize(id, end) => PutKeeps(w, id, w.segs[id].(range := w.segs[id].range.(end := end)));
    case Cancel(_) => CancelKeeps(w, e);
    case Finished(_, _) => FinishedKeeps(w, e);
    case Relist(list) =>
      PlansElsewhere(w, Apply(w, e));
      ReportsElsewhere(w, Apply(w, e));
    case Jump(_, _) => JumpKeeps(w, e);
    case Skip(_) => SkipKeeps(w, e);
    case Tick(_, _, _) => TickKeepsInv(w, e);
  }

  /** Checking and then stepping, with the recorder asked for the checked window,
      is an enabled tick. */
  lemma TickIsEnabled<Id>(w: World<Id>, id: Id, slices: seq<Period>, clips: seq<Clip>)
    requires Inv(w) && id in w.segs && !w.segs[id].processed && !w.segs[id].canceled && CloudList(slices)
    requires var y := Checked(w.segs[id], slices); RecorderContract(y.start, Clamp(y).stop, clips)
    ensures var c := CheckWindow(w.segs[id], slices);
            && Enabled(w, Tick(id, slices, clips)) && Inv(Apply(w, Tick(id, slices, clips)))
            && (c.upload ==> !c.finalized && CheckWorld(w, id, slices).segs[id] == Checked(w.segs[id], slices))
            && Apply(w, Tick(id, slices, clips))
               == if c.upload then StepWorld(CheckWorld(w, id, slices), id, clips) else CheckWorld(w, id, slices)
  {
    assert SegmentInv(w.segs[id], w.hist.origins[id]);
    TickIsCheckThenStep(w, id, slices, clips);
    CheckIsExact(w.segs[id], slices);
    ApplyKeepsInv(w, Tick(id, slices, clips));
  }
}
