/** One segmenter: a window that slides over [begin - pre, end + post) and turns
    what the recorder holds there into planned uploads. Every function here is
    one step on one segmenter; the uploader's methods apply them in place. */
module Segments {
  import opened Periods

  /** Clock ticks are nanoseconds. */
  const TEN_MINUTES: int := 600_000_000_000

  datatype Clip = Clip(start: int, stop: int) {
    predicate Usable() {
      start != NULL_TIME && stop != NULL_TIME
    }

    predicate Covers(t: int) {
      start <= t < stop
    }

    predicate TooLong() {
      stop - start > TEN_MINUTES
    }
  }

  const NO_CLIP := Clip(NULL_TIME, NULL_TIME)

  datatype Status = Pending | Done | Error | Canceled
  datatype Report = Report(status: Status, progress: nat)

  /** What a segmenter is asked to cover. */
  datatype Range = Range(begin: int, end: int, pre: int, post: int, step: int) {
    predicate IsOpen() {
      end == NULL_TIME
    }

    function Limit(): int {
      end + post
    }

    /** Ranges are compared with the step, not with the post-record time. */
    predicate Intersects(r: Range) {
      && begin - pre <= (if r.end != NULL_TIME then r.end + r.step else MAX_TIME)
      && (if end != NULL_TIME then end + step else MAX_TIME) >= r.begin - r.pre
    }
  }

  datatype Segment = Segment(
    range: Range,
    start: int, stop: int,
    processed: bool, canceled: bool, finished: bool,
    ticket: string,
    planned: nat, done: nat, failed: nat)
  {
    predicate IsOpen() {
      range.IsOpen()
    }

    function Limit(): int {
      range.Limit()
    }

    predicate AllReported() {
      planned == done + failed
    }

    /** The window ends before it starts. */
    predicate Inverted() {
      stop < start
    }

    /** The earliest instant the segmenter may still come to. */
    function Low(): int {
      if !processed && Inverted() then stop else start
    }
  }

  /** The time a range spans for the comparison: from begin minus pre up to end plus step,
      both included, or with no end. */
  predicate Spans(x: Range, t: int) {
    x.begin - x.pre <= t <= (if x.IsOpen() then MAX_TIME else x.end + x.step)
  }

  /** Ranges intersect exactly if there is a time that both span. */
  lemma IntersectsIff(x: Range, r: Range)
    requires Spans(x, x.begin - x.pre) && Spans(r, r.begin - r.pre)
    ensures x.Intersects(r) <==> exists t :: Spans(x, t) && Spans(r, t)
  {
    var a, b := x.begin - x.pre, r.begin - r.pre;
    var t := if a < b then b else a;
    assert x.Intersects(r) ==> Spans(x, t) && Spans(r, t);
  }

  /** Two closed ranges have an instant of recording time in common. */
  predicate Overlaps(x: Range, r: Range) {
    && !x.IsOpen() && !r.IsOpen()
    && x.begin - x.pre < r.Limit() && r.begin - r.pre < x.Limit()
  }

  /** The intersection test compares with the step where the range extends by the
      post-record time: it notices every overlap with an ordinary range exactly when
      the post-record time does not exceed the step by more than one tick. */
  lemma IntersectsSeesOverlapIff(x: Range)
    requires !x.IsOpen() && x.begin - x.pre < x.Limit()
    ensures (forall r :: Overlaps(x, r) && r.post <= r.step ==> x.Intersects(r)) <==> x.post <= x.step + 1
  {
    var b := x.Limit() - 1;
    var missed := Range(b, if b == NULL_TIME then 1 else b, 0, 1, 1);
    assert Overlaps(x, missed);
    assert x.post > x.step + 1 ==> !x.Intersects(missed);
  }

  /** The segmenter an event creates: its first window starts pre ahead of the event. */
  function NewSegment(start: int, stop: int, pre: int, post: int, step: int, ticket: string): Segment {
    Segment(Range(start, stop, pre, post, step),
            start - pre,
            var cap := if stop != NULL_TIME then stop + post else MAX_TIME;
            if start + step < cap then start + step else cap,
            false, false, false, ticket, 0, 0, 0)
  }

  /** The first window reaches to begin plus the step, but in a closed event not beyond
      end plus post. */
  lemma FirstWindow(start: int, stop: int, pre: int, post: int, step: int, ticket: string, t: int)
    requires start + step <= MAX_TIME
    ensures var x := NewSegment(start, stop, pre, post, step, ticket);
            && x.start == start - pre && x.range == Range(start, stop, pre, post, step)
            && (t <= x.stop <==> t <= start + step && (stop != 0 ==> t <= stop + post))
            && x.ticket == ticket && !x.processed && !x.canceled && !x.finished
            && x.planned == x.done == x.failed == 0
  {
  }

  /** The state a segmenter enters the uploader in. */
  predicate Fresh(x: Segment) {
    && !x.processed && !x.canceled && !x.finished
    && x.planned == x.done == x.failed == 0
    && 0 < x.range.step && 0 < x.start && 0 < x.stop
  }

  /** A new segmenter starts at begin minus pre and its first window ends no later
      than a closed event's limit; that window is inverted exactly when the event
      ends before the start. */
  lemma NewSegmentIsFreshIff(start: int, stop: int, pre: nat, post: nat, step: int, ticket: string)
    requires 0 < start - pre < MAX_TIME
    ensures var x := NewSegment(start, stop, pre, post, step, ticket);
            && x.start == x.range.begin - x.range.pre && (!x.IsOpen() ==> x.stop <= x.Limit())
            && (0 < step ==> (x.Inverted() <==> !x.IsOpen() && x.Limit() < x.start))
            && (Fresh(x) && !x.Inverted() <==> 0 < step && (x.IsOpen() || x.start <= x.Limit()))
  {
  }

  /** Another delivery mode is chosen while the event goes on: the segmenter begins
      anew at this time, but the end of its window stays where it was. */
  function Redirected(x: Segment, now: int): Segment {
    x.(range := x.range.(begin := now), start := now)
  }

  // ------------------------------------------------------ skipping the cloud

  datatype Check = Check(start: int, stop: int, upload: bool, finalized: bool)

  /** Goes through the cloud periods from index i on, cutting the window. */
  function CheckFrom(slices: seq<Period>, i: nat, start: int, stop: int, step: int, limit: int, upload: bool): Check
    decreases |slices| - i
  {
    if i >= |slices| then Check(start, stop, upload, false)
    else if !slices[i].Intersects(MakePeriod(start, stop)) then
      CheckFrom(slices, i + 1, start, stop, step, limit, upload)
    else
      var start' := if start >= slices[i].begin then slices[i].end else start;
      var cut := if start >= slices[i].begin then stop else slices[i].begin;
      var stop' := if cut <= start' then start' + step else cut;
      if start' > limit then Check(start', stop', false, true)
      else CheckFrom(slices, i + 1, start', stop', step, limit, upload && cut > start')
  }

  function CheckWindow(x: Segment, slices: seq<Period>): Check {
    CheckFrom(slices, 0, x.start, x.stop, x.range.step, x.Limit(), true)
  }

  /** Cloud periods as the merged timeline gives them. */
  predicate CloudList(slices: seq<Period>) {
    Gapped(slices) && SortedByBegin(slices) && forall p :: p in slices ==> p.end != NULL_TIME
  }

  predicate CoveredFrom(slices: seq<Period>, i: nat, t: int) {
    exists j :: i <= j < |slices| && slices[j].Covers(t)
  }

  /** Skipping is exact, for the periods from index i on. */
  lemma {:induction false} CheckFromExact(
    slices: seq<Period>, i: nat, start: int, stop: int, step: int, limit: int, upload: bool)
    requires CloudList(slices) && 0 < step && 0 < start <= stop
    ensures var r := CheckFrom(slices, i, start, stop, step, limit, upload);
            && start <= r.start <= r.stop
            && (forall t :: start <= t < r.start ==> CoveredFrom(slices, i, t))
            && (r.upload ==> upload && r.stop <= stop && (start < stop ==> r.start < r.stop))
            && (r.upload ==> forall t :: r.start <= t < r.stop ==> !CoveredFrom(slices, i, t))
            && (upload && !r.upload && !r.finalized ==> start < r.start)
            && (r.finalized ==> !r.upload && r.start > limit)
            && (!r.finalized && r.start > start ==> r.start <= limit)
            && (start < stop || start < r.start ==> r.start < r.stop)
    decreases |slices| - i
  {
    if i < |slices| {
      var p := slices[i];
      if p.Intersects(MakePeriod(start, stop)) {
        assert p in slices;
        var start' := if start >= p.begin then p.end else start;
        var cut := if start >= p.begin then stop else p.begin;
        var stop' := if cut <= start' then start' + step else cut;
        if start' <= limit {
          CheckFromExact(slices, i + 1, start', stop', step, limit, upload && cut > start');
        }
        CoveredStep(slices, i);
      } else {
        CheckFromExact(slices, i + 1, start, stop, step, limit, upload);
        CoveredStep(slices, i);
      }
    }
  }

  /** An inverted window is met only by a period that spans it; the start then
      moves to the end of that period, and else the window stays as it is. */
  lemma {:induction false} CheckFromInverted(
    slices: seq<Period>, i: nat, start: int, stop: int, step: int, limit: int, upload: bool)
    requires CloudList(slices) && 0 < step && 0 < stop < start
    ensures var r := CheckFrom(slices, i, start, stop, step, limit, upload);
            if TouchesFrom(slices, i, Period(start, stop)) then
              && start < r.start < r.stop && !r.upload
              && (forall t :: start <= t < r.start ==> CoveredFrom(slices, i, t))
              && !CoveredFrom(slices, i, r.start) && (r.finalized <==> r.start > limit)
            else r == Check(start, stop, upload, false)
    decreases |slices| - i
  {
    if i < |slices| {
      var p := slices[i];
      assert p in slices;
      CoveredStep(slices, i);
      TouchesStep(slices, i, Period(start, stop));
      if p.Intersects(MakePeriod(start, stop)) {
        CheckFromInside(slices, i, step, limit);
      } else {
        if TouchesFrom(slices, i + 1, Period(start, stop)) {
          var j :| i + 1 <= j < |slices| && slices[j].Intersects(Period(start, stop));
          assert p.end < slices[j].begin < start;
        }
        CheckFromInverted(slices, i + 1, start, stop, step, limit, upload);
      }
    }
  }

  /** Having moved to the end of one period, the start stays there, in no period. */
  lemma CheckFromInside(slices: seq<Period>, i: nat, step: int, limit: int)
    requires CloudList(slices) && 0 < step && i < |slices| && 0 < slices[i].end
    ensures var e := slices[i].end; var r := CheckFrom(slices, i + 1, e, e + step, step, limit, false);
            && !CoveredFrom(slices, i, e) && r.start == e < r.stop && !r.upload
            && (e <= limit ==> !r.finalized)
  {
    var e := slices[i].end;
    assert forall j :: i < j < |slices| ==> slices[i].end < slices[j].begin;
    CheckFromStays(slices, i + 1, e, e + step, step, limit, false);
    CheckFromExact(slices, i + 1, e, e + step, step, limit, false);
  }

  lemma CoveredStep(slices: seq<Period>, i: nat)
    requires i < |slices|
    ensures forall t :: CoveredFrom(slices, i, t) <==> slices[i].Covers(t) || CoveredFrom(slices, i + 1, t)
  {
  }

  /** A start that lies before every remaining period is not moved. */
  lemma {:induction false} CheckFromStays(
    slices: seq<Period>, i: nat, start: int, stop: int, step: int, limit: int, upload: bool)
    requires forall j :: i <= j < |slices| ==> start < slices[j].begin
    ensures var r := CheckFrom(slices, i, start, stop, step, limit, upload);
            r.start == start && (start <= limit ==> !r.finalized)
    decreases |slices| - i
  {
    if i < |slices| {
      if slices[i].Intersects(MakePeriod(start, stop)) {
        var cut := slices[i].begin;
        CheckFromStays(slices, i + 1, start, if cut <= start then start + step else cut, step, limit,
                       upload && cut > start);
      } else {
        CheckFromStays(slices, i + 1, start, stop, step, limit, upload);
      }
    }
  }

  predicate TouchesFrom(slices: seq<Period>, i: nat, window: Period) {
    exists j :: i <= j < |slices| && slices[j].Intersects(window)
  }

  /** The check finalizes exactly when some period meets the window and the cut
      start lies beyond the limit; and in every case the cut start is free. */
  lemma {:induction false} CheckFromFinalizes(
    slices: seq<Period>, i: nat, start: int, stop: int, step: int, limit: int, upload: bool)
    requires CloudList(slices) && 0 < step && 0 < start <= stop
    ensures var r := CheckFrom(slices, i, start, stop, step, limit, upload);
            && (r.finalized <==> TouchesFrom(slices, i, Period(start, stop)) && r.start > limit)
            && (start < stop ==> !CoveredFrom(slices, i, r.start))
    decreases |slices| - i
  {
    if i < |slices| {
      var p := slices[i];
      assert p in slices;
      CoveredStep(slices, i);
      TouchesStep(slices, i, Period(start, stop));
      if p.Intersects(MakePeriod(start, stop)) {
        CheckFromTouched(slices, i, start, stop, step, limit, upload);
      } else {
        if p.begin > start {
          assert forall j :: i < j < |slices| ==> slices[i].end < slices[j].begin;
          CheckFromStays(slices, i + 1, start, stop, step, limit, upload);
        } else {
          CheckFromExact(slices, i + 1, start, stop, step, limit, upload);
        }
        CheckFromFinalizes(slices, i + 1, start, stop, step, limit, upload);
      }
    }
  }

  /** The first period that meets the window settles the start. */
  lemma CheckFromTouched(slices: seq<Period>, i: nat, start: int, stop: int, step: int, limit: int, upload: bool)
    requires CloudList(slices) && 0 < step && 0 < start <= stop && i < |slices|
    requires slices[i].Intersects(MakePeriod(start, stop))
    ensures var r := CheckFrom(slices, i, start, stop, step, limit, upload);
            (r.finalized <==> r.start > limit) && (start < stop ==> !CoveredFrom(slices, i, r.start))
  {
    var p := slices[i];
    assert p in slices;
    CoveredStep(slices, i);
    var start' := if start >= p.begin then p.end else start;
    var cut := if start >= p.begin then stop else p.begin;
    var stop' := if cut <= start' then start' + step else cut;
    assert forall j :: i < j < |slices| ==> slices[i].end < slices[j].begin;
    CheckFromStays(slices, i + 1, start', stop', step, limit, upload && cut > start');
  }

  lemma TouchesStep(slices: seq<Period>, i: nat, window: Period)
    requires i < |slices|
    ensures TouchesFrom(slices, i, window) <==> slices[i].Intersects(window) || TouchesFrom(slices, i + 1, window)
  {
  }

  predicate IsBegin(slices: seq<Period>, t: int) {
    exists j :: 0 <= j < |slices| && slices[j].begin == t
  }

  /** A window to upload ends where it did at first or at the begin of a period; a new
      one is as long as the step, unless a period begins in it. */
  predicate EndsRight(slices: seq<Period>, start: int, stop: int, step: int, upload: bool, first: int) {
    if upload then stop == first || IsBegin(slices, stop)
    else stop == start + step || (start < stop < start + step && IsBegin(slices, stop))
  }

  lemma {:induction false} CheckFromEnds(
    slices: seq<Period>, i: nat, start: int, stop: int, step: int, limit: int, upload: bool, first: int)
    requires CloudList(slices) && 0 < step && 0 < start && 0 < stop
    requires EndsRight(slices, start, stop, step, upload, first)
    requires !upload ==> forall j :: i <= j < |slices| ==> start < slices[j].begin
    ensures var r := CheckFrom(slices, i, start, stop, step, limit, upload);
            !r.finalized ==> EndsRight(slices, r.start, r.stop, step, r.upload, first)
    decreases |slices| - i
  {
    if i < |slices| {
      var p := slices[i];
      if p.Intersects(MakePeriod(start, stop)) {
        assert p in slices;
        var start' := if start >= p.begin then p.end else start;
        var cut := if start >= p.begin then stop else p.begin;
        var stop' := if cut <= start' then start' + step else cut;
        if start' <= limit {
          CheckFromEnds(slices, i + 1, start', stop', step, limit, upload && cut > start', first);
        }
      } else {
        CheckFromEnds(slices, i + 1, start, stop, step, limit, upload, first);
      }
    }
  }

  /** Where the window ends after the check, unless it finalizes the segmenter. */
  lemma CheckWindowEnds(x: Segment, slices: seq<Period>)
    requires CloudList(slices) && 0 < x.range.step && 0 < x.start && 0 < x.stop
    ensures var r := CheckWindow(x, slices);
            && (r.upload ==> r.stop == x.stop || IsBegin(slices, r.stop))
            && (!r.upload && !r.finalized ==>
                  || r.stop == r.start + x.range.step
                  || (r.start < r.stop < r.start + x.range.step && IsBegin(slices, r.stop)))
  {
    CheckFromEnds(slices, 0, x.start, x.stop, x.range.step, x.Limit(), true, x.stop);
    if CheckWindow(x, slices).finalized {
      CheckIsExact(x, slices);
    }
  }

  predicate Touches(slices: seq<Period>, window: Period) {
    exists p :: p in slices && p.Intersects(window)
  }

  /** Cloud skipping is exact. The start moves to the earliest instant the cloud
      does not hold, and everything it moved over is on the cloud; when the check
      answers "upload", the new window lies inside the old one and no instant of
      it is on the cloud; and the segmenter is finalized exactly when a period
      meets the window and the new start lies beyond the limit. An inverted window
      stays as it is unless a period meets it. */
  lemma CheckIsExact(x: Segment, slices: seq<Period>)
    requires CloudList(slices) && 0 < x.range.step && 0 < x.start && 0 < x.stop
    ensures var r, touched := CheckWindow(x, slices), Touches(slices, Period(x.start, x.stop));
            && x.start <= r.start && (!x.Inverted() || touched ==> r.start <= r.stop)
            && (x.Inverted() && !touched ==> r == Check(x.start, x.stop, true, false))
            && (forall t :: x.start <= t < r.start ==> Covered(slices, t))
            && (x.start < x.stop || (x.Inverted() && touched) ==> r.start < r.stop && !Covered(slices, r.start))
            && (r.upload ==> r.stop <= x.stop && forall t :: r.start <= t < r.stop ==> !Covered(slices, t))
            && (r.upload && x.Inverted() ==> !touched)
            && (!r.upload && !r.finalized ==> x.start < r.start < r.stop)
            && (r.finalized <==> touched && r.start > x.Limit())
            && (r.finalized ==> !r.upload)
            && (!r.finalized && r.start > x.start ==> r.start <= x.Limit())
  {
    var window := Period(x.start, x.stop);
    CoveredAndTouched(slices, window);
    if x.Inverted() {
      CheckFromInverted(slices, 0, x.start, x.stop, x.range.step, x.Limit(), true);
    } else {
      CheckFromExact(slices, 0, x.start, x.stop, x.range.step, x.Limit(), true);
      CheckFromFinalizes(slices, 0, x.start, x.stop, x.range.step, x.Limit(), true);
    }
  }

  lemma CoveredAndTouched(slices: seq<Period>, window: Period)
    ensures forall t :: CoveredFrom(slices, 0, t) <==> Covered(slices, t)
    ensures TouchesFrom(slices, 0, window) <==> Touches(slices, window)
  {
    if Touches(slices, window) {
      var p :| p in slices && p.Intersects(window);
      var j :| 0 <= j < |slices| && slices[j] == p;
      assert slices[j].Intersects(window);
    }
  }

  /** The finalization test does not ask whether the segmenter is still open: an
      open segmenter that is past its own post-record time after the epoch is
      ended by any period that meets its window, and by nothing else. */
  lemma OpenSegmentFinalizedByAnySlice(x: Segment, slices: seq<Period>)
    requires CloudList(slices) && 0 < x.range.step && 0 < x.start && 0 < x.stop
    requires x.IsOpen() && x.start > x.range.post
    ensures CheckWindow(x, slices).finalized <==> Touches(slices, Period(x.start, x.stop))
  {
    CheckIsExact(x, slices);
  }

  /** For instance: one tick of cloud data in the first window of an event that
      is still going on ends the upload of that event. */
  lemma OpenSegmentFinalizedExample()
    ensures var x := NewSegment(1000, NULL_TIME, 5, 5, 15, "");
            Fresh(x) && x.IsOpen() && CheckWindow(x, [Period(1001, 1002)]).finalized
  {
    var x := NewSegment(1000, NULL_TIME, 5, 5, 15, "");
    assert x.start == 995 && x.stop == 1015 && x.Limit() == 5;
    var slices := [Period(1001, 1002)];
    assert slices[0].Intersects(Period(995, 1015));
    OpenSegmentFinalizedByAnySlice(x, slices);
  }

  // ---------------------------------------------------- asking the recorder

  function Clamp(x: Segment): Segment {
    if !x.IsOpen() && x.stop > x.Limit() then x.(stop := x.Limit()) else x
  }

  predicate Outside(x: Segment) {
    !x.IsOpen() && x.start >= x.Limit()
  }

  /** Whether this step asks the recorder for clips, and so uses the answer. */
  predicate Queries(x: Segment) {
    !x.processed && !x.canceled && !Outside(x) && x.start != Clamp(x).stop
  }

  /** What a recorder promises of its answer for the window [a, b): the first
      clip, if any, has both its times set and lies inside the window. */
  predicate RecorderContract(a: int, b: int, clips: seq<Clip>) {
    clips != [] ==> clips[0].Usable() && a <= clips[0].start <= clips[0].stop <= b
  }

  /** The answer misses none of the recorded instants: nothing is recorded ahead
      of the first clip, and nothing at all when there is no clip. */
  ghost predicate Honest(recorded: iset<int>, a: int, b: int, clips: seq<Clip>) {
    && RecorderContract(a, b, clips)
    && forall t :: t in recorded && a <= t < (if clips == [] then b else clips[0].start) ==> false
  }

  datatype StepResult = StepResult(seg: Segment, plans: seq<Clip>, notify: bool)

  /** Moves a non-empty window past the recorder's answer. */
  function TakeClip(y: Segment, clip: Clip): StepResult {
    var next := if clip.Usable() && !clip.TooLong() then clip.stop else y.stop;
    var moved := y.(start := next, stop := next + y.range.step);
    var z := moved.(processed := Outside(moved));
    if clip.Usable() then StepResult(z.(planned := z.planned + 1), [clip], false)
    else if z.processed && z.planned == 0 then StepResult(z.(finished := true), [], true)
    else StepResult(z, [], false)
  }

  function StepSegment(x: Segment, clips: seq<Clip>): StepResult {
    if x.processed || x.canceled then StepResult(x, [], false)
    else
      var y := Clamp(x);
      if Outside(y) then
        StepResult(y.(processed := true, finished := y.finished || y.planned == 0), [], y.planned == 0)
      else if y.start == y.stop then
        StepResult(y.(stop := y.start + y.range.step), [], false)
      else TakeClip(y, if clips == [] then NO_CLIP else clips[0])
  }

  /** The recorder's first clip exceeds ten minutes and ends before the window. */
  predicate CutsShort(x: Segment, clips: seq<Clip>) {
    Queries(x) && clips != [] && clips[0].TooLong() && clips[0].stop < Clamp(x).stop
  }

  /** What a step leaves behind without planning it: the rest of the window after
      a clip of more than ten minutes. */
  function StepGaps(x: Segment, clips: seq<Clip>): seq<Period> {
    if CutsShort(x, clips) then [Period(clips[0].stop, Clamp(x).stop)] else []
  }

  predicate Planned(plans: seq<Clip>, t: int) {
    exists i :: 0 <= i < |plans| && plans[i].Covers(t)
  }

  /** One step accounts for every recorded instant it moves over: it is in the
      clip just planned, or in the rest of a window with an over-long clip. */
  lemma StepAccounts(x: Segment, clips: seq<Clip>, recorded: iset<int>)
    requires !x.processed && !x.canceled && 0 < x.range.step
    requires Queries(x) ==> Honest(recorded, x.start, Clamp(x).stop, clips)
    ensures var r := StepSegment(x, clips);
            forall t :: t in recorded && x.start <= t < r.seg.start ==>
                          Planned(r.plans, t) || Covered(StepGaps(x, clips), t)
  {
    var r := StepSegment(x, clips);
    if Queries(x) && clips != [] {
      var gaps := StepGaps(x, clips);
      forall t | t in recorded && x.start <= t < r.seg.start
        ensures Planned(r.plans, t) || Covered(gaps, t)
      {
        if t < clips[0].stop {
          assert r.plans[0].Covers(t);
        } else {
          assert gaps[0].Covers(t);
        }
      }
    }
  }

  /** A recorded instant the step moves over without planning it. */
  ghost predicate StepMisses(x: Segment, clips: seq<Clip>, recorded: iset<int>, t: int) {
    && Honest(recorded, x.start, Clamp(x).stop, clips)
    && t in recorded && x.start <= t < StepSegment(x, clips).seg.start && !Planned(StepSegment(x, clips).plans, t)
  }

  /** A step can miss what is recorded exactly when the recorder's first clip
      exceeds ten minutes and ends before the window does. */
  lemma StepMissesIff(x: Segment, clips: seq<Clip>)
    requires Queries(x) && 0 < x.range.step && RecorderContract(x.start, Clamp(x).stop, clips)
    ensures (exists recorded, t :: StepMisses(x, clips, recorded, t)) <==> CutsShort(x, clips)
  {
    var r := StepSegment(x, clips);
    if CutsShort(x, clips) {
      var t := clips[0].stop;
      assert !r.plans[0].Covers(t);
      assert StepMisses(x, clips, iset{t}, t);
    }
    forall recorded, t | StepMisses(x, clips, recorded, t)
      ensures CutsShort(x, clips)
    {
      StepAccounts(x, clips, recorded);
      assert Covered(StepGaps(x, clips), t);
    }
  }

  /** What a step plans lies inside the window and behind the new position, and a
      closed segmenter ends only when its position has reached the limit. A step
      leaves a window in order. */
  lemma StepStaysInWindow(x: Segment, clips: seq<Clip>)
    requires !x.processed && !x.canceled && 0 < x.range.step && 0 < x.start && 0 < x.stop
    requires Queries(x) ==> RecorderContract(x.start, Clamp(x).stop, clips)
    ensures var r := StepSegment(x, clips);
            && x.Low() <= r.seg.Low() && (!x.Inverted() ==> x.start <= r.seg.start)
            && |r.plans| <= 1
            && (forall c :: c in r.plans ==> x.start <= c.start <= c.stop <= r.seg.start && c.stop <= x.stop)
            && (r.plans != [] ==> !x.Inverted())
            && r.seg.planned == x.planned + |r.plans|
            && (r.seg.processed ==> Outside(r.seg))
            && (!r.seg.processed ==> r.seg.start <= r.seg.stop)
            && 0 < r.seg.start && (!r.seg.processed ==> 0 < r.seg.stop)
            && (r.notify ==> r.seg.processed && r.seg.planned == 0)
            && (r.seg.finished ==> r.seg.processed || x.finished)
  {
  }

  /** Where a step takes the window: behind the first clip, if there is one of at most
      ten minutes, and else behind the window as far as the limit; an empty window starts
      where it did. The next window is as long as the step. */
  lemma NextWindow(x: Segment, clips: seq<Clip>)
    requires !x.processed && !x.canceled && !Outside(x) && 0 < x.range.step
    requires Queries(x) ==> RecorderContract(x.start, Clamp(x).stop, clips)
    ensures var y := StepSegment(x, clips).seg;
            && y.stop == y.start + x.range.step
            && (!Queries(x) ==> y.start == x.start)
            && (Queries(x) && clips != [] && clips[0].stop - clips[0].start <= 10 * 60 * 1_000_000_000 ==>
                  y.start == clips[0].stop)
            && (Queries(x) && (clips == [] || clips[0].stop - clips[0].start > 10 * 60 * 1_000_000_000) ==>
                  && y.start <= x.stop && (!x.IsOpen() ==> y.start <= x.range.end + x.range.post)
                  && (y.start == x.stop || (!x.IsOpen() && y.start == x.range.end + x.range.post)))
  {
  }

  /** Exactly the first clip is planned, whatever its length, and nothing of a closed
      event beyond its end plus its post-record time. */
  lemma PlansFirstClip(x: Segment, clips: seq<Clip>)
    requires !x.processed && !x.canceled && 0 < x.range.step
    requires Queries(x) ==> RecorderContract(x.start, Clamp(x).stop, clips)
    ensures var r := StepSegment(x, clips);
            && r.plans == (if Queries(x) && clips != [] then [clips[0]] else [])
            && r.seg.planned == x.planned + |r.plans|
            && (!x.IsOpen() ==> forall c :: c in r.plans ==> c.stop <= x.range.end + x.range.post)
  {
  }

  /** A step never moves a segmenter back unless its window is inverted; with an
      inverted window it always does, to the end of that window. */
  lemma StepMovesBackIffInverted(x: Segment, clips: seq<Clip>)
    requires Queries(x) && 0 < x.range.step && RecorderContract(x.start, Clamp(x).stop, clips)
    ensures StepSegment(x, clips).seg.start < x.start <==> x.Inverted()
    ensures x.Inverted() ==> StepSegment(x, clips).seg.start == x.stop
  {
  }

  /** Redirecting a segmenter makes its next step go back exactly when the new
      begin lies beyond the end of the window it had. */
  lemma RedirectMovesBackIff(x: Segment, now: int, clips: seq<Clip>)
    requires var y := Redirected(x, now);
             Queries(y) && 0 < x.range.step && RecorderContract(now, Clamp(y).stop, clips)
    ensures StepSegment(Redirected(x, now), clips).seg.start < now <==> x.stop < now
    ensures x.stop < now ==> StepSegment(Redirected(x, now), clips).seg.start == x.stop
  {
    StepMovesBackIffInverted(Redirected(x, now), clips);
  }

  /** For instance: an event still going on, redirected long after its first window. */
  lemma RedirectExample(clips: seq<Clip>)
    requires RecorderContract(2000, 1015, clips)
    ensures var y := Redirected(NewSegment(1000, NULL_TIME, 5, 5, 15, ""), 2000);
            && Fresh(y) && y.start == y.range.begin == 2000
            && StepSegment(y, clips).seg.start == 1015
  {
    RedirectMovesBackIff(NewSegment(1000, NULL_TIME, 5, 5, 15, ""), 2000, clips);
  }

  /** Clips over ten minutes are announced as skipped, yet they are planned: every
      answer within the contract keeps planned clips to ten minutes exactly when
      the window itself is no longer than that. */
  lemma PlannedClipsShortIffWindowShort(x: Segment)
    requires Queries(x) && 0 < x.start <= x.stop
    ensures (forall clips: seq<Clip> :: RecorderContract(x.start, Clamp(x).stop, clips) ==>
               forall c :: c in StepSegment(x, clips).plans ==> !c.TooLong())
            <==> Clamp(x).stop - x.start <= TEN_MINUTES
  {
    var whole := [Clip(x.start, Clamp(x).stop)];
    assert RecorderContract(x.start, Clamp(x).stop, whole);
    assert StepSegment(x, whole).plans == whole;
    assert whole[0] in StepSegment(x, whole).plans;
  }

  // ------------------------------------------------------- status reporting

  datatype StatusResult = StatusResult(seg: Segment, tickets: seq<string>, reports: seq<Report>)

  function Without(tickets: seq<string>, ticket: string): seq<string> {
    if tickets == [] then []
    else if tickets[0] == ticket then Without(tickets[1..], ticket)
    else [tickets[0]] + Without(tickets[1..], ticket)
  }

  lemma WithoutNext(tickets: seq<string>, i: nat, ticket: string, kept: seq<string>)
    requires i < |tickets|
    ensures kept + Without(tickets[i..], ticket)
            == kept + (if tickets[i] == ticket then [] else [tickets[i]]) + Without(tickets[i + 1..], ticket)
    ensures ticket in tickets[..i + 1] <==> ticket in tickets[..i] || tickets[i] == ticket
  {
    assert tickets[i..][0] == tickets[i] && tickets[i..][1..] == tickets[i + 1..];
    assert tickets[..i + 1] == tickets[..i] + [tickets[i]];
  }

  function Capped(progress: nat): nat {
    if progress < 100 then progress else 100
  }

  /** The report due now; after a final one the ticket is given up. */
  function Conclude(y: Segment, progress: nat): (Segment, Report) {
    if y.canceled then (y, Report(Canceled, Capped(progress)))
    else if y.processed && y.AllReported() then
      (y.(ticket := ""), Report(if y.done == 0 then Error else Done, 100))
    else (y, Report(Pending, Capped(progress)))
  }

  /** Reports the status of a segmenter that has a ticket, and marks it canceled
      first if its ticket was canceled meanwhile. */
  function SendStatus(x: Segment, tickets: seq<string>, progress: nat): StatusResult {
    if x.ticket == "" then StatusResult(x, tickets, [])
    else
      var c := Conclude(x.(canceled := x.canceled || x.ticket in tickets), progress);
      StatusResult(c.0, Without(tickets, x.ticket), [c.1])
  }

  /** Without a ticket nothing is reported. With one, exactly one report is sent, whatever
      the state, and the fields alone tell which; only a final report takes the ticket
      away, and every report takes it off the list of canceled tickets. */
  lemma StatusIsSent(x: Segment, tickets: seq<string>, progress: nat)
    ensures x.ticket == "" ==> SendStatus(x, tickets, progress) == StatusResult(x, tickets, [])
    ensures x.ticket != "" ==>
              var s := SendStatus(x, tickets, progress);
              var canceled, ended := x.canceled || x.ticket in tickets, x.processed && x.planned == x.done + x.failed;
              && |s.reports| == 1 && s.seg.canceled == canceled
              && (s.reports[0].status == Canceled <==> canceled)
              && (s.reports[0].status == Done <==> !canceled && ended && x.done > 0)
              && (s.reports[0].status == Error <==> !canceled && ended && x.done == 0)
              && (s.reports[0].status == Pending <==> !canceled && !ended)
              && (s.seg.ticket == "" <==> !canceled && ended) && (canceled || !ended ==> s.seg.ticket == x.ticket)
              && s.reports[0].progress == (if (ended && !canceled) || progress > 100 then 100 else progress)
              && x.ticket !in s.tickets && (forall t :: t != x.ticket ==> (t in s.tickets <==> t in tickets))
  {
    WithoutOnly(tickets, x.ticket);
  }

  lemma {:induction false} WithoutOnly(tickets: seq<string>, ticket: string)
    ensures ticket !in Without(tickets, ticket)
    ensures forall t :: t != ticket ==> (t in Without(tickets, ticket) <==> t in tickets)
    decreases |tickets|
  {
    if tickets != [] {
      WithoutOnly(tickets[1..], ticket);
      assert tickets == [tickets[0]] + tickets[1..];
    }
  }

  /** The progress reported while uploads are still being planned is 0. */
  function Progress(x: Segment): nat
    requires x.planned > 0
  {
    if x.processed then Percent(x.done + x.failed, x.planned) else 0
  }

  function Percent(part: nat, whole: nat): nat
    requires whole > 0
  {
    part * 100 / whole
  }

  function Counted(x: Segment, ok: bool): Segment {
    var y := if ok then x.(done := x.done + 1) else x.(failed := x.failed + 1);
    y.(finished := y.processed && y.AllReported())
  }

  /** An upload of this segmenter reports back, possibly more than once. Without
      a ticket there is nothing to report. */
  function UploadFinished(x: Segment, tickets: seq<string>, ok: bool): StatusResult
    requires x.planned > 0
  {
    SendStatus(Counted(x, ok), tickets, Progress(Counted(x, ok)))
  }

  /** A report of an upload counts it, finishes the segmenter exactly if it has ended and
      this was the last one missing, and tells the share of the planned uploads that have
      reported, in whole percents, once the segmenter has ended, and 0 before. */
  lemma UploadIsCounted(x: Segment, tickets: seq<string>, ok: bool)
    requires x.planned > 0
    ensures var y, p, n := Counted(x, ok), Progress(Counted(x, ok)), x.done + x.failed + 1;
            && y.done == x.done + (if ok then 1 else 0) && y.done + y.failed == n
            && (y.finished <==> x.processed && x.planned == n)
            && y == x.(done := y.done, failed := y.failed, finished := y.finished)
            && (if x.processed then p * x.planned <= 100 * n < (p + 1) * x.planned else p == 0)
            && UploadFinished(x, tickets, ok) == SendStatus(y, tickets, p)
  {
    var n := x.done + x.failed + 1;
    var q := n * 100 / x.planned;
    assert n * 100 == x.planned * q + n * 100 % x.planned;
  }

  /** A segmenter that has ended, planned something, and still owes its final
      report, although nothing is left to report: any further report of an upload
      would be one too many. */
  predicate Mute(x: Segment) {
    x.processed && !x.canceled && x.ticket != "" && 0 < x.planned <= x.done + x.failed
  }

  // ---------------------------------------------------------- a whole tick

  /** The status report, if one is due, is sent after the tick's other effects. */
  datatype TickResult = TickResult(seg: Segment, plans: seq<Clip>, gaps: seq<Period>, notify: bool, progress: nat)

  function Checked(x: Segment, slices: seq<Period>): Segment {
    var c := CheckWindow(x, slices);
    var y := x.(start := c.start, stop := c.stop);
    if c.finalized then y.(processed := true, finished := true) else y
  }

  /** One tick on the current segmenter: check against the cloud, then step. */
  function TickSegment(x: Segment, slices: seq<Period>, clips: seq<Clip>): TickResult {
    var c := CheckWindow(x, slices);
    var y := Checked(x, slices);
    if c.upload then
      var r := StepSegment(y, clips);
      TickResult(r.seg, r.plans, StepGaps(y, clips), r.notify, 0)
    else TickResult(y, [], [], c.finalized && y.planned == 0, 100)
  }

  /** What may be ticked: the current segmenter, unprocessed and not canceled. */
  predicate Tickable(x: Segment) {
    !x.processed && !x.canceled && 0 < x.range.step && 0 < x.start && 0 < x.stop
  }

  /** The recorder's answer is used only if the check lets the step through. */
  ghost predicate TickContract(x: Segment, slices: seq<Period>, clips: seq<Clip>) {
    && CloudList(slices)
    && var y := Checked(x, slices);
       CheckWindow(x, slices).upload && Queries(y) ==> RecorderContract(y.start, Clamp(y).stop, clips)
  }

  ghost predicate TickHonest(x: Segment, slices: seq<Period>, clips: seq<Clip>, recorded: iset<int>) {
    var y := Checked(x, slices);
    CheckWindow(x, slices).upload && Queries(y) ==> Honest(recorded, y.start, Clamp(y).stop, clips)
  }

  /** Every recorded instant a tick moves over is planned, on the cloud, or in the
      rest of a window with an over-long clip. */
  lemma TickAccounts(x: Segment, slices: seq<Period>, clips: seq<Clip>, recorded: iset<int>)
    requires Tickable(x) && CloudList(slices) && TickHonest(x, slices, clips, recorded)
    ensures var r := TickSegment(x, slices, clips);
            forall t :: t in recorded && x.start <= t < r.seg.start ==>
                          Planned(r.plans, t) || Covered(slices, t) || Covered(r.gaps, t)
  {
    CheckIsExact(x, slices);
    if CheckWindow(x, slices).upload {
      StepAccounts(Checked(x, slices), clips, recorded);
    }
  }

  /** A tick plans only clips between the old and the new position, leaves a window
      in order, never moves back unless the window was inverted, and ends a closed
      segmenter only once its position has reached the limit. */
  lemma TickKeeps(x: Segment, slices: seq<Period>, clips: seq<Clip>)
    requires Tickable(x) && TickContract(x, slices, clips)
    ensures var r := TickSegment(x, slices, clips);
            && x.Low() <= r.seg.Low() && (!x.Inverted() ==> x.start <= r.seg.start)
            && |r.plans| <= 1
            && (forall c :: c in r.plans ==> x.start <= c.start <= c.stop <= r.seg.start)
            && r.seg.planned == x.planned + |r.plans|
            && (r.seg.processed && !x.IsOpen() ==> Outside(r.seg))
            && (!r.seg.processed ==> r.seg.start <= r.seg.stop && !r.notify)
            && 0 < r.seg.start && (r.notify ==> r.seg.planned == 0)
            && (r.seg.finished ==> r.seg.processed || x.finished)
  {
    CheckIsExact(x, slices);
    if CheckWindow(x, slices).upload {
      StepStaysInWindow(Checked(x, slices), clips);
    }
  }

  /** A tick goes back exactly when the window is inverted, no period on the cloud
      meets it, and the segmenter has not reached its limit. */
  predicate TickGoesBack(x: Segment, slices: seq<Period>) {
    x.Inverted() && !Touches(slices, Period(x.start, x.stop)) && !Outside(x)
  }

  lemma TickGoesBackIff(x: Segment, slices: seq<Period>, clips: seq<Clip>)
    requires Tickable(x) && TickContract(x, slices, clips)
    ensures TickSegment(x, slices, clips).seg.start < x.start <==> TickGoesBack(x, slices)
  {
    CheckIsExact(x, slices);
    if CheckWindow(x, slices).upload {
      StepStaysInWindow(Checked(x, slices), clips);
    }
  }

  /** The redirected segmenter of the example goes back with the next tick. */
  lemma RedirectExampleTick(y: Segment)
    requires y == Redirected(NewSegment(1000, NULL_TIME, 5, 5, 15, ""), 2000)
    ensures TickContract(y, [], []) && TickSegment(y, [], []).seg.start == 1015
  {
    assert CheckWindow(y, []) == Check(2000, 1015, true, false);
    assert Checked(y, []) == y;
  }

  /** A tick ends the segmenter exactly when the check finalizes it, when it is
      already at its limit, or when its window reaches the limit and the recorder's
      first clip, if there is one, is over-long or reaches the limit too. */
  predicate TickEnds(x: Segment, slices: seq<Period>, clips: seq<Clip>) {
    var c := CheckWindow(x, slices);
    || c.finalized
    || (c.upload && !x.IsOpen()
        && (c.start >= x.Limit()
            || (c.stop >= x.Limit() && (clips == [] || clips[0].TooLong() || clips[0].stop == x.Limit()))))
  }

  lemma TickEndsIff(x: Segment, slices: seq<Period>, clips: seq<Clip>)
    requires Tickable(x) && TickContract(x, slices, clips)
    ensures TickSegment(x, slices, clips).seg.processed <==> TickEnds(x, slices, clips)
  {
    CheckIsExact(x, slices);
  }

  /** A tick that ends a segmenter also finishes it exactly if the check finalized it or
      nothing was ever planned. */
  lemma TickFinishesIff(x: Segment, slices: seq<Period>, clips: seq<Clip>)
    requires Tickable(x) && TickContract(x, slices, clips) && !x.finished
    ensures var r := TickSegment(x, slices, clips);
            r.seg.finished <==> CheckWindow(x, slices).finalized || (r.seg.processed && r.seg.planned == 0)
  {
    CheckIsExact(x, slices);
  }

  /** The clip a tick plans holds nothing that the cloud was seen to hold. */
  lemma TickPlansAvoidCloud(x: Segment, slices: seq<Period>, clips: seq<Clip>)
    requires Tickable(x) && TickContract(x, slices, clips)
    ensures forall c, t :: c in TickSegment(x, slices, clips).plans && c.Covers(t) ==> !Covered(slices, t)
  {
    CheckIsExact(x, slices);
    if CheckWindow(x, slices).upload {
      StepStaysInWindow(Checked(x, slices), clips);
    }
  }

  lemma StepKeepsRest(x: Segment, clips: seq<Clip>)
    ensures var y := StepSegment(x, clips).seg;
            && y.range == x.range && y.canceled == x.canceled && y.ticket == x.ticket
            && y.done == x.done && y.failed == x.failed
  {
  }

  /** What no tick touches. */
  lemma TickKeepsRest(x: Segment, slices: seq<Period>, clips: seq<Clip>)
    ensures var y := TickSegment(x, slices, clips).seg;
            && y.range == x.range && y.canceled == x.canceled && y.ticket == x.ticket
            && y.done == x.done && y.failed == x.failed
  {
    StepKeepsRest(Checked(x, slices), clips);
  }

  // ------------------------------------------------------------- progress

  /** How many ticks a closed segmenter can still take. */
  function TicksLeft(x: Segment): nat {
    (if x.Low() < x.Limit() then x.Limit() - x.Low() else 0) + 1 + (if x.start >= x.stop then 1 else 0)
  }

  /** The recorder's first clip is empty and lies at the start of the window, where
      the cloud holds nothing. */
  predicate Stalls(x: Segment, slices: seq<Period>, clips: seq<Clip>) {
    var c := CheckWindow(x, slices);
    c.upload && c.start == x.start && Queries(Checked(x, slices)) && clips != [] && clips[0].stop == x.start
  }

  /** A tick ends a closed segmenter or brings it nearer to its end exactly unless
      it stalls. */
  lemma TickProgressIff(x: Segment, slices: seq<Period>, clips: seq<Clip>)
    requires Tickable(x) && !x.IsOpen() && TickContract(x, slices, clips)
    ensures var r := TickSegment(x, slices, clips);
            r.seg.processed || TicksLeft(r.seg) < TicksLeft(x) <==> !Stalls(x, slices, clips)
    ensures Stalls(x, slices, clips) ==> TicksLeft(TickSegment(x, slices, clips).seg) == TicksLeft(x)
  {
    CheckProgress(x, slices);
    if CheckWindow(x, slices).upload {
      StepProgressIff(Checked(x, slices), clips);
    }
  }

  /** The check brings a segmenter nearer to its end whenever it moves its start. */
  lemma CheckProgress(x: Segment, slices: seq<Period>)
    requires Tickable(x) && !x.IsOpen() && CloudList(slices)
    ensures var c, y := CheckWindow(x, slices), Checked(x, slices);
            && x.start <= y.start && 0 < y.start && 0 < y.stop
            && (c.upload ==> !c.finalized && Tickable(y))
            && (c.upload ==> if y.start == x.start then TicksLeft(y) == TicksLeft(x) else TicksLeft(y) < TicksLeft(x))
            && (!c.upload && !c.finalized ==> TicksLeft(y) < TicksLeft(x))
  {
    CheckIsExact(x, slices);
  }

  /** So does the step, unless it gets an empty clip at the start of the window. */
  lemma StepProgressIff(y: Segment, clips: seq<Clip>)
    requires Tickable(y) && !y.IsOpen() && (Queries(y) ==> RecorderContract(y.start, Clamp(y).stop, clips))
    ensures var z, stalls := StepSegment(y, clips).seg, Queries(y) && clips != [] && clips[0].stop == y.start;
            if stalls then !z.processed && TicksLeft(z) == TicksLeft(y)
            else z.processed || TicksLeft(z) < TicksLeft(y)
  {
  }

  datatype Answers = Answers(slices: seq<Period>, clips: seq<Clip>)

  /** Ticks until the segmenter is processed, or until the answers run out. */
  function RunTicks(x: Segment, ticks: seq<Answers>): Segment
    decreases |ticks|
  {
    if ticks == [] || x.processed then x
    else RunTicks(TickSegment(x, ticks[0].slices, ticks[0].clips).seg, ticks[1..])
  }

  ghost predicate GoodTicks(x: Segment, ticks: seq<Answers>)
    decreases |ticks|
  {
    ticks == [] || x.processed ||
    (&& TickContract(x, ticks[0].slices, ticks[0].clips)
     && GoodTicks(TickSegment(x, ticks[0].slices, ticks[0].clips).seg, ticks[1..]))
  }

  /** How many of the ticks stall. */
  function StalledTicks(x: Segment, ticks: seq<Answers>): nat
    decreases |ticks|
  {
    if ticks == [] || x.processed then 0
    else (if Stalls(x, ticks[0].slices, ticks[0].clips) then 1 else 0)
         + StalledTicks(TickSegment(x, ticks[0].slices, ticks[0].clips).seg, ticks[1..])
  }

  /** Whatever the cloud and the recorder answer, a closed segmenter is processed
      after at most as many ticks as it has instants left, plus two, and as many
      more as have stalled. */
  lemma {:induction false} TicksReachProcessed(x: Segment, ticks: seq<Answers>)
    requires Tickable(x) && !x.IsOpen() && GoodTicks(x, ticks)
    requires |ticks| >= TicksLeft(x) + StalledTicks(x, ticks)
    ensures RunTicks(x, ticks).processed
    decreases |ticks|
  {
    var y := TickSegment(x, ticks[0].slices, ticks[0].clips).seg;
    TickKeeps(x, ticks[0].slices, ticks[0].clips);
    TickProgressIff(x, ticks[0].slices, ticks[0].clips);
    TickKeepsRest(x, ticks[0].slices, ticks[0].clips);
    if !y.processed {
      TicksReachProcessed(y, ticks[1..]);
    }
  }

  /** An empty clip at the start of the window, n times. */
  function EmptyClips(x: Segment, n: nat): seq<Answers> {
    seq(n, i => Answers([], [Clip(x.start, x.start)]))
  }

  /** The recorder's contract allows a clip that is empty, and then the segmenter
      may stay where it is through any number of ticks, planning one empty upload
      after another. */
  lemma {:induction false} StallsForever(x: Segment, n: nat)
    requires Tickable(x) && !x.IsOpen() && x.start < x.stop && x.start < x.Limit()
    ensures var ticks := EmptyClips(x, n);
            && GoodTicks(x, ticks) && StalledTicks(x, ticks) == n
            && var y := RunTicks(x, ticks);
               !y.processed && y.start == x.start && y.planned == x.planned + n
    decreases n
  {
    var ticks := EmptyClips(x, n);
    if n > 0 {
      var y := TickSegment(x, [], ticks[0].clips).seg;
      assert CheckWindow(x, []) == Check(x.start, x.stop, true, false);
      assert Checked(x, []) == x && Queries(x);
      assert y == x.(stop := x.start + x.range.step, planned := x.planned + 1);
      assert ticks[1..] == EmptyClips(y, n - 1);
      StallsForever(y, n - 1);
    }
  }

  // -------------------------------------------------------- windows kept short

  /** Neither this window nor any later one exceeds ten minutes. */
  predicate ShortWindow(x: Segment) {
    x.stop - x.start <= TEN_MINUTES && x.range.step <= TEN_MINUTES
  }

  /** An event whose pre-record time and step come to ten minutes at most. */
  lemma NewSegmentIsShort(start: int, stop: int, pre: nat, post: nat, step: int, ticket: string)
    requires pre + step <= TEN_MINUTES
    ensures ShortWindow(NewSegment(start, stop, pre, post, step, ticket))
  {
  }

  /** With a short window no tick leaves a gap, and the window stays short. */
  lemma TickKeepsShort(x: Segment, slices: seq<Period>, clips: seq<Clip>)
    requires Tickable(x) && TickContract(x, slices, clips) && ShortWindow(x)
    ensures var r := TickSegment(x, slices, clips);
            r.gaps == [] && (!r.seg.processed ==> ShortWindow(r.seg)) && forall c :: c in r.plans ==> !c.TooLong()
  {
    CheckIsExact(x, slices);
    CheckFromShort(slices, 0, x.start, x.stop, x.range.step, x.Limit(), true);
    if CheckWindow(x, slices).upload {
      StepStaysInWindow(Checked(x, slices), clips);
    }
  }

  /** Cutting a window against the cloud never makes it longer than it was or than
      the step. */
  lemma {:induction false} CheckFromShort(
    slices: seq<Period>, i: nat, start: int, stop: int, step: int, limit: int, upload: bool)
    requires CloudList(slices) && 0 < step && 0 < start && 0 < stop
    ensures var r := CheckFrom(slices, i, start, stop, step, limit, upload);
            r.stop - r.start <= stop - start || r.stop - r.start <= step
    decreases |slices| - i
  {
    if i < |slices| {
      var p := slices[i];
      if p.Intersects(MakePeriod(start, stop)) {
        assert p in slices;
        var start' := if start >= p.begin then p.end else start;
        var cut := if start >= p.begin then stop else p.begin;
        var stop' := if cut <= start' then start' + step else cut;
        if start' <= limit {
          CheckFromShort(slices, i + 1, start', stop', step, limit, upload && cut > start');
        }
      } else {
        CheckFromShort(slices, i + 1, start, stop, step, limit, upload);
      }
    }
  }
}
