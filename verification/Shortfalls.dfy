/** Runs from the start in which the uploader falls short of what it is meant to do. */
module Shortfalls {
  import opened Periods
  import opened Segments
  import opened Machine
  import opened Runs
  import opened Reports
  import opened Losses
  import opened Adjusting

  // --------------------------------------------------- states with one segmenter

  ghost function One(x: Segment, h: History<nat>): World<nat> {
    World(map[0 := x], [0], [], h)
  }

  /** The history when a segmenter has just entered. */
  ghost function Entered(x: Segment): History<nat> {
    History(map[0 := x.Low()], map[0 := x.start], [], [], [], [], {})
  }

  lemma EnterOne(x: Segment, recorded: iset<int>)
    requires Fresh(x)
    ensures Reached(One(x, Entered(x)), recorded)
  {
    ReachedStart<nat>(recorded);
    ReachedNext(Start<nat>(), Enqueue(0, x), One(x, Entered(x)), recorded);
  }

  /** What a tick adds to the history. */
  ghost function Ticked(h: History<nat>, r: TickResult, slices: seq<Period>): History<nat> {
    h.(plans := h.plans + PlansOf(0, r.plans), cloud := h.cloud + slices, gaps := h.gaps + r.gaps)
  }

  lemma TickOne(x: Segment, h: History<nat>, slices: seq<Period>, clips: seq<Clip>, recorded: iset<int>)
    requires Reached(One(x, h), recorded) && !x.processed && !x.canceled
    requires TickContract(x, slices, clips) && TickHonest(x, slices, clips, recorded)
    requires TickSegment(x, slices, clips).notify ==> x.ticket == ""
    ensures var r := TickSegment(x, slices, clips);
            Reached(One(r.seg, Ticked(h, r, slices)), recorded)
  {
    var w, r := One(x, h), TickSegment(x, slices, clips);
    TickOfOne(x, h, slices, clips);
    ReachedNext(w, Tick(0, slices, clips), One(r.seg, Ticked(h, r, slices)), recorded);
  }

  lemma TickOfOne(x: Segment, h: History<nat>, slices: seq<Period>, clips: seq<Clip>)
    requires TickSegment(x, slices, clips).notify ==> x.ticket == ""
    ensures var r := TickSegment(x, slices, clips);
            TickWorld(One(x, h), 0, slices, clips) == One(r.seg, Ticked(h, r, slices))
  {
    var w, r := One(x, h), TickSegment(x, slices, clips);
    assert w.segs[0 := r.seg] == map[0 := r.seg];
    if r.notify {
      TickKeepsRest(x, slices, clips);
      UnnoticedOne(r.seg, Ticked(h, r, slices), r.progress);
    }
  }

  lemma UnnoticedOne(x: Segment, h: History<nat>, progress: nat)
    requires x.ticket == ""
    ensures Notify(One(x, h), 0, progress) == One(x, h)
  {
    assert One(x, h).segs[0 := x] == map[0 := x];
    assert h.reports + [] == h.reports;
  }

  /** An upload reports, and more reports are to come. */
  lemma ReportOne(x: Segment, h: History<nat>, recorded: iset<int>) returns (h': History<nat>)
    requires Reached(One(x, h), recorded)
    requires !x.processed && !x.canceled && x.planned > 0
    ensures Reached(One(Counted(x, true), h'), recorded) && h' == h.(reports := h'.reports)
  {
    var w, s := One(x, h), UploadFinished(x, [], true);
    assert s.seg == Counted(x, true);
    h' := h.(reports := h.reports + Entries(0, s));
    assert w.segs[0 := s.seg] == map[0 := s.seg];
    ReachedNext(w, Finished(0, true), One(s.seg, h'), recorded);
  }

  // --------------------------------------------------- states with two segmenters

  ghost function Two(x: Segment, y: Segment, h: History<nat>): World<nat> {
    World(map[0 := x, 1 := y], [0, 1], [], h)
  }

  /** The history when the second segmenter enters after that of the first. */
  ghost function Joined(h: History<nat>, y: Segment): History<nat> {
    h.(origins := h.origins[1 := y.Low()], since := h.since[1 := y.start])
  }

  lemma EnterSecond(x: Segment, h: History<nat>, y: Segment, recorded: iset<int>)
    requires Reached(One(x, h), recorded) && Fresh(y)
    ensures Reached(Two(x, y, Joined(h, y)), recorded)
  {
    var w, e := One(x, h), Event<nat>.Enqueue(1, y);
    assert w.segs[1 := y] == map[0 := x, 1 := y] && w.list + [1] == [0, 1];
    ReachedNext(w, e, Two(x, y, Joined(h, y)), recorded);
  }

  /** The second segmenter at the position of the first. */
  function MovedTo(y: Segment, x: Segment): Segment {
    y.(start := x.start, stop := x.start + y.range.step)
  }

  /** The history after the second segmenter jumped over the first. */
  ghost function Jumped(h: History<nat>, gaps: seq<Period>): History<nat> {
    h.(gaps := h.gaps + gaps, debts := h.debts + Borrowed(h.debts, 1, 0))
  }

  lemma JumpOfSecond(x: Segment, y: Segment, h: History<nat>, recorded: iset<int>)
    requires Reached(Two(x, y, h), recorded) && x.processed && !y.processed && !y.canceled
    requires y.range.Intersects(x.range) && y.start < x.start && 0 in h.since
    ensures Reached(Two(x, MovedTo(y, x), Jumped(h, JumpGaps(Two(x, y, h), 1, 0))), recorded)
  {
    var w, y', e := Two(x, y, h), MovedTo(y, x), Event<nat>.Jump(1, 0);
    assert w.segs[1 := y'] == map[0 := x, 1 := y'];
    ReachedNext(w, e, Two(x, y', Jumped(h, JumpGaps(w, 1, 0))), recorded);
  }

  /** A segmenter without a ticket ends unnoticed. */
  lemma SkipOfSecond(x: Segment, y: Segment, h: History<nat>, recorded: iset<int>)
    requires Reached(Two(x, y, h), recorded) && !y.processed && Outside(y) && y.ticket == ""
    ensures Reached(Two(x, y.(processed := true, finished := true), h), recorded)
  {
    var w, y', e := Two(x, y, h), y.(processed := true, finished := true), Event<nat>.Skip(1);
    assert SendStatus(y', [], 100) == StatusResult(y', [], []);
    assert h.reports + [] == h.reports;
    assert w.segs[1 := y'] == map[0 := x, 1 := y'];
    assert w.segs[1 := y'][1 := y'] == map[0 := x, 1 := y'];
    ReachedNext(w, e, Two(x, y', h), recorded);
  }

  // -------------------------------------------------------- data that gets lost

  /** A recorded instant of the range lies behind the position, neither planned by
      any segmenter nor on the cloud. */
  ghost predicate HasLost<Id>(w: World<Id>, id: Id, recorded: iset<int>) {
    exists t :: t in recorded && Lost(w, id, t)
  }

  ghost predicate Lost<Id>(w: World<Id>, id: Id, t: int) {
    && id in w.segs && id in w.hist.since
    && w.hist.since[id] <= t < w.segs[id].start && t < w.segs[id].Limit()
    && (forall i :: 0 <= i < |w.hist.plans| ==> !w.hist.plans[i].clip.Covers(t))
    && !Covered(w.hist.cloud, t)
  }

  /** One segmenter, processed in one tick, with a plan for all of its range. */
  function Processed(ticket: string): Segment {
    NewSegment(100, 110, 0, 0, 20, ticket).(start := 110, stop := 130, processed := true, planned := 1)
  }

  ghost function ProcessedHistory(): History<nat> {
    History(map[0 := 100], map[0 := 100], [], [Plan(0, Clip(100, 110))], [], [], {})
  }

  lemma TickToProcessed(ticket: string, recorded: iset<int>)
    ensures var x, clips := NewSegment(100, 110, 0, 0, 20, ticket), [Clip(100, 110)];
            && Fresh(x) && TickContract(x, [], clips) && TickHonest(x, [], clips, recorded)
            && TickSegment(x, [], clips) == TickResult(Processed(ticket), clips, [], false, 0)
  {
    var x := NewSegment(100, 110, 0, 0, 20, ticket);
    assert CheckWindow(x, []) == Check(100, 110, true, false);
    assert Checked(x, []) == x && Clamp(x) == x;
  }

  lemma ReachProcessed(ticket: string, recorded: iset<int>)
    ensures Reached(One(Processed(ticket), ProcessedHistory()), recorded)
  {
    var x, clips := NewSegment(100, 110, 0, 0, 20, ticket), [Clip(100, 110)];
    TickToProcessed(ticket, recorded);
    EnterOne(x, recorded);
    TickOne(x, Entered(x), [], clips, recorded);
    TickedIsProcessed(ticket);
  }

  lemma TickedIsProcessed(ticket: string)
    ensures var x, clips := NewSegment(100, 110, 0, 0, 20, ticket), [Clip(100, 110)];
            Ticked(Entered(x), TickResult(Processed(ticket), clips, [], false, 0), []) == ProcessedHistory()
  {
  }

  /** The state after a fresh second segmenter has jumped over the processed one. */
  ghost function AfterJump(ticket: string, y: Segment): World<nat> {
    var x, h := Processed(ticket), Joined(ProcessedHistory(), y);
    var gaps := if y.start < 100 then [Period(y.start, 100)] else [];
    Two(x, MovedTo(y, x), Jumped(h, gaps))
  }

  lemma ReachJump(ticket: string, y: Segment, recorded: iset<int>)
    requires Fresh(y) && y.start < 110 && y.range.Intersects(Processed(ticket).range)
    ensures Reached(AfterJump(ticket, y), recorded)
  {
    var x, h := Processed(ticket), Joined(ProcessedHistory(), y);
    ReachProcessed(ticket, recorded);
    EnterSecond(x, ProcessedHistory(), y, recorded);
    JumpOfSecond(x, y, h, recorded);
  }

  /** A segmenter scheduled late, for an earlier time than one already processed,
      jumps over its own beginning: an instant recorded there ends up behind its
      position, in no plan and in no cloud period. */
  lemma LateSegmentLosesData() returns (w: World<nat>, recorded: iset<int>)
    ensures Reached(w, recorded) && HasLost(w, 1, recorded)
  {
    recorded := iset{50};
    var y := NewSegment(10, 200, 0, 0, 20, "");
    ReachJump("", y, recorded);
    w := AfterJump("", y);
    LateIsLost(w);
    assert 50 in recorded;
  }

  lemma LateIsLost(w: World<nat>)
    requires w == AfterJump("", NewSegment(10, 200, 0, 0, 20, ""))
    ensures Lost(w, 1, 50)
  {
    assert w.hist.since[1] == 10 && w.segs[1].start == 110;
    assert w.hist.plans == [Plan(0, Clip(100, 110))];
  }

  /** Twenty minutes in one window. */
  function Wide(): Segment {
    NewSegment(1, 2 * TEN_MINUTES, 0, 0, 2 * TEN_MINUTES, "")
  }

  function WideEnded(): Segment {
    Wide().(start := 2 * TEN_MINUTES, stop := 4 * TEN_MINUTES, processed := true, planned := 1)
  }

  lemma WideTick(end: int)
    requires end == TEN_MINUTES + 2
    ensures var x, clips := Wide(), [Clip(1, end)];
            && Fresh(x) && TickContract(x, [], clips) && TickHonest(x, [], clips, iset{end})
            && TickSegment(x, [], clips)
               == TickResult(WideEnded(), clips, [Period(end, 2 * TEN_MINUTES)], false, 0)
  {
    var x := Wide();
    assert CheckWindow(x, []) == Check(1, 2 * TEN_MINUTES, true, false);
    assert Checked(x, []) == x && Clamp(x) == x;
  }

  /** A clip of more than ten minutes that ends before its window makes the rest of
      the window go lost, and the segmenter ends without it. */
  lemma OverlongClipLosesData() returns (w: World<nat>, recorded: iset<int>)
    ensures Reached(w, recorded) && HasLost(w, 0, recorded)
    ensures w.segs[0].processed && !w.segs[0].canceled && !w.segs[0].IsOpen()
  {
    var end := TEN_MINUTES + 2;
    recorded := iset{end};
    var y, h := ReachWide(end);
    w := One(y, h);
    WideIsLost(w, end);
    assert end in recorded;
  }

  lemma ReachWide(end: int) returns (y: Segment, h: History<nat>)
    requires end == TEN_MINUTES + 2
    ensures Reached(One(y, h), iset{end}) && y.processed && !y.canceled && !y.IsOpen()
    ensures y.start == y.Limit() == 2 * TEN_MINUTES
    ensures h.since == map[0 := 1] && h.cloud == [] && h.plans == [Plan(0, Clip(1, end))]
  {
    var x, clips := Wide(), [Clip(1, end)];
    WideTick(end);
    EnterOne(x, iset{end});
    TickOne(x, Entered(x), [], clips, iset{end});
    y := WideEnded();
    h := Ticked(Entered(x), TickResult(y, clips, [Period(end, 2 * TEN_MINUTES)], false, 0), []);
  }

  lemma WideIsLost(w: World<nat>, end: int)
    requires 1 < end && 0 in w.segs && end < w.segs[0].start && end < w.segs[0].Limit()
    requires 0 in w.hist.since && w.hist.since[0] == 1 && w.hist.cloud == []
    requires w.hist.plans == [Plan(0, Clip(1, end))]
    ensures Lost(w, 0, end)
  {
    assert !w.hist.plans[0].clip.Covers(end);
  }

  lemma FinalizeOne(x: Segment, h: History<nat>, end: int, recorded: iset<int>)
    requires Reached(One(x, h), recorded)
    ensures Reached(One(x.(range := x.range.(end := end)), h), recorded)
  {
    var w, y := One(x, h), x.(range := x.range.(end := end));
    assert w.segs[0 := y] == map[0 := y];
    ReachedNext(w, Finalize(0, end), One(y, h), recorded);
  }

  /** An event from 100 on, given another delivery mode at 110 and ended then. */
  function Skipping(): Segment {
    Redirected(NewSegment(100, 110, 0, 0, 20, ""), 110).(stop := 120)
  }

  lemma ReachSkipping(recorded: iset<int>) returns (h: History<nat>)
    ensures Reached(One(Skipping(), h), recorded)
    ensures h.since == map[0 := 100] && h.plans == [] && h.cloud == []
  {
    var x := NewSegment(100, NULL_TIME, 0, 0, 20, "");
    EnterOne(x, recorded);
    RedirectOne(x, 110, recorded);
    h := RedirectedHistory(x, 110);
    FinalizeOne(Redirected(x, 110), h, 110, recorded);
    assert Skipping() == Redirected(x, 110).(range := Redirected(x, 110).range.(end := 110));
  }

  /** Changing the delivery mode of a segmenter that is behind makes what lies between go
      lost, and the segmenter ends without it. */
  lemma RedirectLosesData() returns (w: World<nat>, recorded: iset<int>)
    ensures Reached(w, recorded) && HasLost(w, 0, recorded)
    ensures w.segs[0].processed && !w.segs[0].canceled && !w.segs[0].IsOpen()
  {
    recorded := iset{105};
    var h := ReachSkipping(recorded);
    SkippingTick(recorded);
    TickOne(Skipping(), h, [], [], recorded);
    w := One(Skipped(), Ticked(h, TickResult(Skipped(), [], [], true, 0), []));
    SkippedIsLost(w);
    assert 105 in recorded;
  }

  lemma SkippedIsLost(w: World<nat>)
    requires 0 in w.segs && w.segs[0] == Skipped() && w.hist.since == map[0 := 100]
    requires w.hist.plans == [] && w.hist.cloud == []
    ensures Lost(w, 0, 105)
  {
  }

  function Skipped(): Segment {
    Skipping().(stop := 110, processed := true, finished := true)
  }

  lemma SkippingTick(recorded: iset<int>)
    ensures TickContract(Skipping(), [], []) && TickHonest(Skipping(), [], [], recorded)
    ensures TickSegment(Skipping(), [], []) == TickResult(Skipped(), [], [], true, 0)
  {
    assert CheckWindow(Skipping(), []) == Check(110, 120, true, false) && Checked(Skipping(), []) == Skipping();
  }

  /** Jumping over a segmenter that is canceled afterwards: what was recorded in the
      range of the one that jumped is planned by the canceled one only. */
  lemma CanceledAfterJump() returns (w: World<nat>, recorded: iset<int>)
    ensures Reached(w, recorded) && w.hist.gaps == [] && 1 in w.segs && 1 in w.hist.since
    ensures w.segs[1].processed && !w.segs[1].canceled && !w.segs[1].IsOpen()
    ensures exists t :: && t in recorded && w.hist.since[1] <= t < w.segs[1].Limit()
                        && !Kept(w, t) && !Covered(w.hist.cloud, t) && Dropped(w, 1, t)
  {
    recorded := iset{105};
    var y, h := ReachSkip(recorded);
    w := CancelOfFirst(Processed("t"), y, h, recorded);
    CanceledIsDropped(w);
    assert 105 in recorded;
  }

  /** The second segmenter has jumped over the first and ended. */
  lemma ReachSkip(recorded: iset<int>) returns (y: Segment, h: History<nat>)
    ensures Reached(Two(Processed("t"), y, h), recorded) && y.ticket == ""
    ensures y.processed && !y.canceled && !y.IsOpen() && y.Limit() == 110
    ensures 1 in h.since && h.since[1] == 100 && h.gaps == [] && h.cloud == []
    ensures h.plans == [Plan(0, Clip(100, 110))] && (1, 0) in h.debts
  {
    y := NewSegment(100, 110, 0, 0, 20, "");
    ReachJump("t", y, recorded);
    h := AfterJump("t", y).hist;
    y := MovedTo(y, Processed("t"));
    SkipOfSecond(Processed("t"), y, h, recorded);
    y := y.(processed := true, finished := true);
  }

  lemma CanceledIsDropped(w: World<nat>)
    requires w.segs.Keys == {0, 1} && w.segs[0].canceled
    requires w.hist.plans == [Plan(0, Clip(100, 110))] && (1, 0) in w.hist.debts
    ensures !Kept(w, 105) && Dropped(w, 1, 105)
  {
    assert w.hist.plans[0].clip.Covers(105);
  }

  lemma CancelOfFirst(x: Segment, y: Segment, h: History<nat>, recorded: iset<int>) returns (w: World<nat>)
    requires Reached(Two(x, y, h), recorded) && x.ticket != "" && x.ticket != y.ticket && !x.canceled
    ensures Reached(w, recorded) && w.segs.Keys == {0, 1} && w.segs[0].canceled && w.segs[1] == y
    ensures w.hist == h.(reports := w.hist.reports)
  {
    var w0 := Two(x, y, h);
    w := Apply(w0, Cancel(x.ticket));
    ReachedNext(w0, Cancel(x.ticket), w, recorded);
    var w1 := CancelOne(w0, 0);
    CancelOneIsQuiet(w0, 0);
    CancelOneKeepsSecond(w0);
    assert CancelFrom(w1, x.ticket, 1) == CancelFrom(w1, x.ticket, 2) == w1;
  }

  lemma CancelOneKeepsSecond(w: World<nat>)
    requires w.segs.Keys == {0, 1}
    ensures CancelOne(w, 0).segs[1] == w.segs[1]
  {
    NotifyIsQuiet(Put(w, 0, w.segs[0].(canceled := true, finished := true, processed := true)), 0, 100);
  }

  // ------------------------------------------------------------- moving back

  /** An event is still going on when its delivery mode changes, long after its first
      window: the next tick takes its segmenter back in time. */
  lemma RedirectedGoesBack() returns (w: World<nat>, e: Event<nat>)
    ensures Reached(w, iset{}) && Enabled(w, e) && e.Tick? && 0 in w.segs && w.segs[0].start == 2000
    ensures Apply(w, e).segs[0].start == 1015 && !Forward(w, Apply(w, e))
  {
    var x := NewSegment(1000, NULL_TIME, 5, 5, 15, "");
    EnterOne(x, iset{});
    RedirectOne(x, 2000, iset{});
    w := One(Redirected(x, 2000), RedirectedHistory(x, 2000));
    e := TickBack(w);
  }

  /** The same when nothing is uploaded at first, and the segmenter enters only when its
      delivery mode has changed. */
  lemma LateDeliveryGoesBack() returns (w: World<nat>, e: Event<nat>)
    ensures Reached(w, iset{}) && Enabled(w, e) && e.Tick? && 0 in w.segs && w.segs[0].start == 2000
    ensures Apply(w, e).segs[0].start == 1015 && !Forward(w, Apply(w, e))
  {
    var y := Redirected(NewSegment(1000, NULL_TIME, 5, 5, 15, ""), 2000);
    EnterOne(y, iset{});
    w := One(y, Entered(y));
    e := TickBack(w);
  }

  lemma TickBack(w: World<nat>) returns (e: Event<nat>)
    requires Inv(w) && 0 in w.segs && w.segs[0] == Redirected(NewSegment(1000, NULL_TIME, 5, 5, 15, ""), 2000)
    ensures Enabled(w, e) && e.Tick? && Apply(w, e).segs[0].start == 1015 && !Forward(w, Apply(w, e))
  {
    e := Tick(0, [], []);
    RedirectExampleTick(w.segs[0]);
    TickEffect(w, e);
  }

  /** The history when a segmenter has entered and been redirected. */
  ghost function RedirectedHistory(x: Segment, now: int): History<nat> {
    History(map[0 := Earlier(x.Low(), now)], map[0 := Earlier(x.start, now)], [], [], [], RedirectGaps(x, now), {})
  }

  lemma RedirectOne(x: Segment, now: int, recorded: iset<int>)
    requires Reached(One(x, Entered(x)), recorded) && 0 < now
    ensures Reached(One(Redirected(x, now), RedirectedHistory(x, now)), recorded)
  {
    var w, e := One(x, Entered(x)), Event<nat>.Redirect(0, now);
    assert w.segs[0 := Redirected(x, now)] == map[0 := Redirected(x, now)];
    assert RedirectWorld(w, 0, now).hist == RedirectedHistory(x, now);
    ReachedNext(w, e, One(Redirected(x, now), RedirectedHistory(x, now)), recorded);
  }

  // ------------------------------------------------ a final report that never comes

  /** The second of two chunks, the upload of the first having reported. */
  function SecondChunk(): Segment {
    NewSegment(100, 110, 0, 0, 5, "t").(start := 105, stop := 110, planned := 1, done := 1)
  }

  lemma ReachSecondChunk() returns (h: History<nat>)
    ensures Reached(One(SecondChunk(), h), iset{}) && h.cloud == []
  {
    var x, clips := NewSegment(100, 110, 0, 0, 5, "t"), [Clip(100, 105)];
    EnterOne(x, iset{});
    assert CheckWindow(x, []) == Check(100, 105, true, false) && Checked(x, []) == x && Clamp(x) == x;
    TickOne(x, Entered(x), [], clips, iset{});
    var r := TickSegment(x, [], clips);
    assert r.seg == SecondChunk().(done := 0);
    h := ReportOne(r.seg, Ticked(Entered(x), r, []), iset{});
    assert Counted(r.seg, true) == SecondChunk();
  }

  /** Ended, not canceled, and the final report will never come. */
  ghost predicate EndsUnreported(w: World<nat>) {
    Reached(w, iset{}) && 0 in w.segs && Mute(w.segs[0])
  }

  /** The last chunk holds nothing, and everything planned has reported before. */
  lemma MuteAfterEmptyChunk() returns (w: World<nat>)
    ensures EndsUnreported(w) && w.segs[0].AllReported() && w.hist.cloud == []
  {
    var x := SecondChunk();
    var h := ReachSecondChunk();
    assert CheckWindow(x, []) == Check(105, 110, true, false) && Checked(x, []) == x && Clamp(x) == x;
    TickOne(x, h, [], [], iset{});
    var r := TickSegment(x, [], []);
    w := One(r.seg, Ticked(h, r, []));
  }

  /** The cloud is found to hold the last chunk, and everything planned has reported
      before. */
  lemma MuteAfterCloudCheck() returns (w: World<nat>)
    ensures EndsUnreported(w) && w.segs[0].AllReported() && w.hist.cloud == [Period(104, 120)]
  {
    var x, slices := SecondChunk(), [Period(104, 120)];
    var h := ReachSecondChunk();
    assert slices[0].Intersects(MakePeriod(105, 110));
    assert CheckWindow(x, slices) == Check(120, 125, false, true);
    TickOne(x, h, slices, [], iset{});
    var r := TickSegment(x, slices, []);
    w := One(r.seg, Ticked(h, r, slices));
  }

  /** The upload of the first chunk has reported twice. */
  lemma MuteAfterRepeatedReport() returns (w: World<nat>)
    ensures EndsUnreported(w) && w.segs[0].planned < w.segs[0].done
  {
    var h0 := ReachSecondChunk();
    var h := ReportOne(SecondChunk(), h0, iset{});
    var x := SecondChunk().(done := 2);
    assert Counted(SecondChunk(), true) == x;
    assert CheckWindow(x, []) == Check(105, 110, true, false) && Checked(x, []) == x && Clamp(x) == x;
    TickOne(x, h, [], [], iset{});
    var r := TickSegment(x, [], []);
    w := One(r.seg, Ticked(h, r, []));
  }

  // ------------------------------------------ adjusting one and ticking another

  /** A segmenter that waits behind a processed one. */
  function Behind(): Segment {
    NewSegment(105, 200, 0, 0, 20, "")
  }

  /** Two such segmenters, of which the first has been adjusted to the processed one. */
  ghost predicate TwoWait(w: World<nat>) {
    && w.segs == map[0 := Processed(""), 1 := MovedTo(Behind(), Processed("")), 2 := Behind()]
    && w.list == [0, 1, 2] && w.hist.plans == [Plan(0, Clip(100, 110))]
  }

  lemma ReachTwoWaiting() returns (w: World<nat>)
    ensures Reached(w, iset{}) && TwoWait(w)
  {
    ReachJump("", Behind(), iset{});
    w := EnterThird(AfterJump("", Behind()), Behind());
  }

  lemma EnterThird(w: World<nat>, y: Segment) returns (w': World<nat>)
    requires Reached(w, iset{}) && w.segs.Keys == {0, 1} && w.list == [0, 1] && Fresh(y)
    ensures Reached(w', iset{}) && w'.segs == map[0 := w.segs[0], 1 := w.segs[1], 2 := y]
    ensures w'.list == [0, 1, 2] && w'.hist.plans == w.hist.plans
  {
    var e := Event<nat>.Enqueue(2, y);
    w' := Apply(w, e);
    ReachedNext(w, e, w', iset{});
  }

  lemma TickOfThird()
    ensures var clips := [Clip(105, 120)];
            TickContract(Behind(), [], clips) && TickSegment(Behind(), [], clips).plans == clips
  {
    var x := Behind();
    assert CheckWindow(x, []) == Check(105, 125, true, false);
    assert Checked(x, []) == x && Clamp(x) == x;
  }

  /** The sort arranges the two differently when the loop chooses again: the other
      one is ticked although it was not adjusted, and it plans once more what the
      processed one has planned. */
  lemma UnsettledPlansTwice() returns (w: World<nat>, kept: seq<nat>, e: Event<nat>)
    ensures Reached(w, iset{}) && Settled(w, 1) && multiset(kept) == multiset(w.list)
    ensures (forall k :: k in kept ==> k in w.segs) && ChosenUnsettled(w, kept, 1, 2)
    ensures Inv(w.(list := kept)) && Enabled(w.(list := kept), e) && e.Tick? && e.id == 2
    ensures PlannedTwice(Apply(w.(list := kept), e).hist.plans)
  {
    w := ReachTwoWaiting();
    kept := [0, 2, 1];
    OtherIsBehind(w, kept);
    assert multiset(kept) == multiset(w.list);
    e := TickUnsettled(w, kept);
  }

  /** Two segmenters have planned the same instant. */
  ghost predicate PlannedTwice(ps: seq<Plan<nat>>) {
    exists i, j, t :: 0 <= i < j < |ps| && ps[i].id != ps[j].id && ps[i].clip.Covers(t) && ps[j].clip.Covers(t)
  }

  lemma TickUnsettled(w: World<nat>, kept: seq<nat>) returns (e: Event<nat>)
    requires Inv(w) && TwoWait(w) && forall k :: k in kept ==> k in w.segs
    ensures Inv(w.(list := kept)) && Enabled(w.(list := kept), e) && e.Tick? && e.id == 2
    ensures PlannedTwice(Apply(w.(list := kept), e).hist.plans)
  {
    TraceRelist(w, kept);
    e := Tick(2, [], [Clip(105, 120)]);
    PlansTwice(w.(list := kept));
  }

  lemma PlansTwice(w: World<nat>)
    requires Inv(w) && 2 in w.segs && w.segs[2] == Behind() && w.hist.plans == [Plan(0, Clip(100, 110))]
    ensures var e := Event<nat>.Tick(2, [], [Clip(105, 120)]);
            Enabled(w, e) && PlannedTwice(Apply(w, e).hist.plans)
  {
    TickOfThird();
    TickEffect(w, Tick(2, [], [Clip(105, 120)]));
    var ps := Apply(w, Tick(2, [], [Clip(105, 120)])).hist.plans;
    assert ps == [Plan(0, Clip(100, 110)), Plan(2, Clip(105, 120))];
    assert ps[0].clip.Covers(105) && ps[1].clip.Covers(105);
  }

  /** One chunk planned, more to come. */
  function Ahead(): Segment {
    NewSegment(100, 200, 0, 0, 20, "").(start := 120, stop := 140, planned := 1)
  }

  lemma ReachAhead() returns (h: History<nat>)
    ensures Reached(One(Ahead(), h), iset{}) && h.plans == [Plan(0, Clip(100, 120))]
  {
    var x, clips := NewSegment(100, 200, 0, 0, 20, ""), [Clip(100, 120)];
    TickToAhead();
    EnterOne(x, iset{});
    TickOne(x, Entered(x), [], clips, iset{});
    h := Ticked(Entered(x), TickResult(Ahead(), clips, [], false, 0), []);
  }

  lemma TickToAhead()
    ensures var x, clips := NewSegment(100, 200, 0, 0, 20, ""), [Clip(100, 120)];
            && Fresh(x) && TickContract(x, [], clips) && TickHonest(x, [], clips, iset{})
            && TickSegment(x, [], clips) == TickResult(Ahead(), clips, [], false, 0)
  {
    var x := NewSegment(100, 200, 0, 0, 20, "");
    assert CheckWindow(x, []) == Check(100, 120, true, false) && Checked(x, []) == x && Clamp(x) == x;
  }

  /** A segmenter with an earlier begin enters while another is under way. It is settled
      and no other has its begin, and yet its first tick plans what the other one has
      planned. */
  lemma SettledPlansTwice() returns (w: World<nat>, e: Event<nat>)
    ensures Reached(w, iset{}) && Settled(w, 1) && BeginsAlone(w, 1)
    ensures Enabled(w, e) && e.Tick? && e.id == 1 && PlannedTwice(Apply(w, e).hist.plans)
  {
    var y := NewSegment(95, 150, 0, 0, 20, "");
    var h := ReachAhead();
    EnterSecond(Ahead(), h, y, iset{});
    w := Two(Ahead(), y, Joined(h, y));
    e := TickOver(w);
  }

  lemma TickOver(w: World<nat>) returns (e: Event<nat>)
    requires Inv(w) && 1 in w.segs && w.segs[1] == NewSegment(95, 150, 0, 0, 20, "")
    requires w.hist.plans == [Plan(0, Clip(100, 120))]
    ensures Enabled(w, e) && e.Tick? && e.id == 1 && PlannedTwice(Apply(w, e).hist.plans)
  {
    var y, clips := w.segs[1], [Clip(95, 115)];
    assert CheckWindow(y, []) == Check(95, 115, true, false) && Checked(y, []) == y && Clamp(y) == y;
    e := Tick(1, [], clips);
    TickEffect(w, e);
    var ps := Apply(w, e).hist.plans;
    assert ps == [Plan(0, Clip(100, 120)), Plan(1, Clip(95, 115))];
    assert ps[0].clip.Covers(100) && ps[1].clip.Covers(100);
  }

  lemma OtherIsBehind(w: World<nat>, kept: seq<nat>)
    requires TwoWait(w) && kept == [0, 2, 1]
    ensures Settled(w, 1) && (forall k :: k in kept ==> k in w.segs) && ChosenUnsettled(w, kept, 1, 2)
  {
    assert BehindOf(w, 2, 0) && 0 in kept;
  }
}
