/** The fragmenting recorder: a sink that cuts a stream of frames into fragments
    at key frames and reports when each fragment began and how long it lasts.
    Wall-clock times are in microseconds, durations in milliseconds, timestamps in
    the stream's own time base num/den. Audio is disabled at initialisation. */
module Fragments {

  const NO_PTS: int := -0x8000_0000_0000_0000
  const REALTIME_TOLERANCE: int := 30_000_000

  datatype Kind = Video | Audio | Other
  datatype Mode = Size | Duration | Unknown

  /** The source divides by the denominator of the time base. */
  type nonzero = x: int | x != 0 witness 1

  datatype Frame = Frame(kind: Kind, pts: int, dts: int, isKey: bool, len: nat, num: int, den: nonzero, realtime: int)

  datatype Fragment = Fragment(start: int, duration: int) {
    function End(): int {
      start + 1000 * duration
    }
  }

  /** A frame as it is handed on, with its timestamps counted from the fragment. */
  datatype Pushed = Pushed(pts: int, dts: int, isKey: bool, len: nat)

  /** done and current hold what was handed on, by fragment; finalized holds what
      was reported. */
  datatype State = State(
    mode: Mode, param: nat, size: nat, start: int, duration: int,
    firstPts: int, firstDts: int, lastPts: int, lastDts: int, keySeen: bool,
    finalized: seq<Fragment>, done: seq<seq<Pushed>>, current: seq<Pushed>)

  /** Division that drops the fraction, whatever the signs. */
  function TruncDiv(a: int, b: int): int
    requires b != 0
  {
    if (a >= 0) == (b > 0) then (if a >= 0 then a / b else (-a) / (-b))
    else if a >= 0 then -(a / -b) else -((-a) / b)
  }

  /** The quotient q of a and b cut toward zero: what is left over is smaller than b
      and has the sign of a. */
  ghost predicate Truncates(q: int, a: int, b: int) {
    var r := a - b * q;
    (if a >= 0 then 0 <= r else r <= 0) && (if b > 0 then -b < r < b else b < r < -b)
  }

  lemma DivMod(a: nat, b: int)
    requires 0 < b
    ensures 0 <= a - b * (a / b) < b
  {
    assert a == b * (a / b) + a % b;
  }

  lemma TruncDivTruncates(a: int, b: int)
    requires b != 0
    ensures Truncates(TruncDiv(a, b), a, b)
  {
    var n, d := if a >= 0 then a else -a, if b > 0 then b else -b;
    DivMod(n, d);
    var q := n / d;
    assert TruncDiv(a, b) == if (a >= 0) == (b > 0) then q else -q;
    assert b * -q == -(b * q) && -d * q == -(d * q);
  }

  /** Nothing else is the quotient cut toward zero. */
  lemma TruncatesOnce(p: int, q: int, a: int, b: int)
    requires b != 0 && Truncates(p, a, b) && Truncates(q, a, b)
    ensures p == q
  {
    assert b * p - b * q == b * (p - q) == -(b * (q - p));
    if p > q {
      Multiple(b, p - q);
    } else if q > p {
      Multiple(b, q - p);
    }
  }

  lemma Multiple(b: int, n: int)
    requires 0 < n
    ensures b > 0 ==> b * n >= b
    ensures b < 0 ==> b * n <= b
  {
    assert b * n == b * (n - 1) + b;
  }

  function Fresh(mode: Mode, param: nat): State {
    State(mode, param, 0, 0, 0, 0, 0, 0, 0, false, [], [], [])
  }

  predicate NeedFinalize(s: State) {
    match s.mode
    case Size => s.size >= s.param
    case Duration => s.duration >= 1000 * s.param
    case Unknown => false
  }

  /** The time a frame was taken at: by the source, if it says so and that is recent. */
  function ClockAt(f: Frame, now: int): int {
    if f.realtime != 0 && now - f.realtime < REALTIME_TOLERANCE then f.realtime else now
  }

  /** The first accepted frame sets the clock. */
  function WithStart(s: State, f: Frame, now: int): State {
    if s.start != 0 then s else s.(start := ClockAt(f, now))
  }

  /** Reports the fragment and lets the next one begin where its last frame was. */
  function Rotate(s: State): State {
    s.(finalized := s.finalized + [Fragment(s.start, s.duration)],
       start := s.start + 1000 * s.duration, duration := 0, size := 0,
       firstPts := s.lastPts, firstDts := s.lastDts,
       done := s.done + [s.current], current := [])
  }

  function WithFirst(s: State, f: Frame): State {
    if s.firstPts == 0 || s.firstPts > f.pts || s.firstPts == NO_PTS || s.firstDts == NO_PTS
    then s.(firstPts := f.pts, firstDts := f.dts) else s
  }

  /** Updates the statistics and hands the frame on. */
  function Accept(s: State, f: Frame): State
  {
    var pts := if f.pts != NO_PTS then f.pts - s.firstPts else NO_PTS;
    var dts := if f.dts != NO_PTS then f.dts - s.firstDts else NO_PTS;
    s.(size := s.size + f.len,
       duration := TruncDiv(f.num * 1000 * (f.pts - s.firstPts), f.den),
       lastPts := if f.pts != NO_PTS then f.pts else s.lastPts,
       lastDts := if f.dts != NO_PTS then f.dts else s.lastDts,
       current := s.current + [Pushed(pts, dts, f.isKey, f.len)])
  }

  /** A video frame that passed the key frame and order tests. */
  function Record(s: State, f: Frame, now: int): State
  {
    var a := WithStart(s, f, now);
    var b := if f.pts != NO_PTS && f.isKey && NeedFinalize(a) then Rotate(a) else a;
    var c := WithFirst(b, f);
    if c.firstPts == NO_PTS || c.firstDts == NO_PTS then c else Accept(c, f)
  }

  function Process(s: State, f: Frame, now: int): State
  {
    if f.kind != Video then s
    else if !s.keySeen && !f.isKey then s
    else if f.pts != NO_PTS && f.pts < s.lastPts then s.(keySeen := false)
    else Record(s.(keySeen := true), f, now)
  }

  /** Ends the recording: what was recorded last is reported if it lasts at all. */
  function Close(s: State, named: bool): State {
    var t := if named && s.duration > 0
             then s.(finalized := s.finalized + [Fragment(s.start, s.duration)]) else s;
    t.(start := 0, firstPts := 0, firstDts := 0, lastPts := 0, lastDts := 0, duration := 0, keySeen := false,
       done := s.done + [s.current], current := [])
  }

  // -------------------------------------------------------------- invariant

  /** Timestamps as a source should give them, in one time base. */
  predicate ValidFrame(f: Frame, num: int, den: int) {
    0 < f.pts && f.dts != NO_PTS && f.num == num && f.den == den && 0 <= f.realtime
  }

  ghost predicate GoodFragment(ps: seq<Pushed>) {
    && (ps != [] ==> ps[0].isKey)
    && (forall i :: 0 <= i < |ps| ==> 0 <= ps[i].pts)
    && (forall i, j :: 0 <= i < j < |ps| ==> ps[i].pts <= ps[j].pts)
  }

  /** Fragments follow each other without a gap or an overlap. */
  ghost predicate Contiguous(fs: seq<Fragment>, end: int) {
    && (forall i :: 0 <= i < |fs| - 1 ==> fs[i].End() == fs[i + 1].start)
    && (fs != [] ==> fs[|fs| - 1].End() == end)
  }

  ghost predicate LongEnough(s: State) {
    s.mode == Duration ==> forall i :: 0 <= i < |s.finalized| ==> s.finalized[i].duration >= 1000 * s.param
  }

  /** Where the recording began: its first timestamp and its first clock time. */
  datatype Origin = Origin(pts: int, start: int)

  /** How far the reported clock lags behind the media time, in units of 1/den ms. */
  function Lag(s: State, o: Origin, num: int, den: int): int {
    num * 1000 * (s.firstPts - o.pts) - den * ((s.start - o.start) / 1000)
  }

  /** The clock after k fragments: it never runs ahead of the media time, and lags
      by less than one unit short of a millisecond per fragment. */
  ghost predicate ClockInv(s: State, o: Origin, num: int, den: int) {
    && 0 < num && 0 < den && 0 < s.start && 0 < o.pts <= s.firstPts <= s.lastPts
    && (s.start - o.start) % 1000 == 0
    && s.duration == num * 1000 * (s.lastPts - s.firstPts) / den
    && 0 <= Lag(s, o, num, den) <= |s.finalized| * (den - 1)
  }

  /** What holds of the fragments; whether the current one may be empty is left open. */
  ghost predicate FragmentsInv(s: State) {
    && GoodFragment(s.current) && (forall i :: 0 <= i < |s.done| ==> GoodFragment(s.done[i]))
    && Contiguous(s.finalized, s.start) && LongEnough(s)
    && |s.done| == |s.finalized|
    && s.firstDts != NO_PTS && s.lastDts != NO_PTS
    && (s.current != [] ==> s.current[|s.current| - 1].pts == s.lastPts - s.firstPts)
  }

  ghost predicate Untouched(s: State) {
    && s.start == s.duration == s.firstPts == s.lastPts == 0
    && s.current == [] && s.done == [] && s.finalized == []
    && s.firstDts != NO_PTS && s.lastDts != NO_PTS && !s.keySeen
  }

  ghost predicate Running(s: State, o: Origin, num: int, den: int) {
    ClockInv(s, o, num, den) && FragmentsInv(s) && s.current != []
  }

  // ------------------------------------------------------------------ steps

  lemma RotateArithmetic(n: int, a: int, b: int, e: int, den: int, k: nat)
    requires 0 < den && 0 <= n && 0 <= b && 0 <= n * a - den * e <= k * (den - 1)
    ensures 0 <= n * (a + b) - den * (e + n * b / den) <= (k + 1) * (den - 1)
  {
    var x := n * b;
    assert n * (a + b) == n * a + x;
    assert den * (e + x / den) == den * e + den * (x / den);
    assert x == den * (x / den) + x % den;
    assert (k + 1) * (den - 1) == k * (den - 1) + (den - 1);
  }

  lemma RotateKeepsClock(s: State, o: Origin, num: int, den: int)
    requires ClockInv(s, o, num, den) && 0 <= s.duration
    ensures ClockInv(Rotate(s), o, num, den)
  {
    var e, b := (s.start - o.start) / 1000, s.lastPts - s.firstPts;
    RotateArithmetic(num * 1000, s.firstPts - o.pts, b, e, den, |s.finalized|);
    var t := Rotate(s);
    assert (t.start - o.start) / 1000 == e + s.duration;
    assert t.firstPts - o.pts == s.firstPts - o.pts + b;
    assert num * 1000 * (t.lastPts - t.firstPts) == 0;
  }

  lemma DurationNonNegative(s: State, o: Origin, num: int, den: int)
    requires ClockInv(s, o, num, den)
    ensures 0 <= s.duration
  {
    MediaTimeNonNegative(num, s.lastPts - s.firstPts, den);
  }

  /** Media time is not negative, and neither is its whole number of milliseconds,
      which truncation gives. */
  lemma MediaTimeNonNegative(num: int, pts: int, den: int)
    requires 0 < num && 0 < den && 0 <= pts
    ensures 0 <= num * 1000 * pts && 0 <= num * 1000 * pts / den
    ensures TruncDiv(num * 1000 * pts, den) == num * 1000 * pts / den
  {
  }

  lemma RotateKeepsFragments(s: State)
    requires FragmentsInv(s) && NeedFinalize(s)
    ensures FragmentsInv(Rotate(s))
  {
  }

  lemma AcceptKeepsClock(s: State, f: Frame, o: Origin, num: int, den: int)
    requires ClockInv(s, o, num, den) && ValidFrame(f, num, den) && s.lastPts <= f.pts
    ensures ClockInv(Accept(s, f), o, num, den)
  {
    MediaTimeNonNegative(num, f.pts - s.firstPts, den);
    var t := Accept(s, f);
    assert t.lastPts == f.pts && t.firstPts == s.firstPts && t.start == s.start && t.finalized == s.finalized;
    assert Lag(t, o, num, den) == Lag(s, o, num, den);
  }

  lemma AcceptKeepsFragments(s: State, f: Frame, num: int, den: int)
    requires FragmentsInv(s) && ValidFrame(f, num, den)
    requires s.firstPts <= s.lastPts <= f.pts && (s.current == [] ==> f.isKey)
    ensures FragmentsInv(Accept(s, f)) && Accept(s, f).current != []
  {
    AppendKeepsGood(s.current, Pushed(f.pts - s.firstPts, f.dts - s.firstDts, f.isKey, f.len), s.lastPts - s.firstPts);
  }

  /** A frame at or after the last one goes on the current fragment. */
  lemma AcceptKeeps(s: State, f: Frame, o: Origin, num: int, den: int)
    requires ClockInv(s, o, num, den) && FragmentsInv(s) && ValidFrame(f, num, den)
    requires s.lastPts <= f.pts && (s.current == [] ==> f.isKey)
    ensures Running(Accept(s, f), o, num, den)
  {
    AcceptKeepsClock(s, f, o, num, den);
    AcceptKeepsFragments(s, f, num, den);
  }

  lemma AppendKeepsGood(ps: seq<Pushed>, p: Pushed, last: int)
    requires GoodFragment(ps) && 0 <= last <= p.pts && (ps == [] ==> p.isKey)
    requires ps != [] ==> ps[|ps| - 1].pts == last
    ensures GoodFragment(ps + [p])
  {
    var qs := ps + [p];
    forall i, j | 0 <= i < j < |qs|
      ensures qs[i].pts <= qs[j].pts
    {
      if j == |ps| && i < |ps| - 1 {
        assert ps[i].pts <= ps[|ps| - 1].pts;
      }
    }
  }

  /** The first frame: it is a key frame, it sets the clock and the origin. */
  lemma FirstRecordKeeps(s: State, f: Frame, now: int, num: int, den: int)
    requires Untouched(s.(keySeen := false)) && ValidFrame(f, num, den) && f.isKey && 0 < now && 0 < num && 0 < den
    ensures Running(Record(s, f, now), Origin(f.pts, ClockAt(f, now)), num, den)
  {
    var a := WithStart(s, f, now);
    var c := WithFirst(if NeedFinalize(a) then Rotate(a) else a, f);
    var o := Origin(f.pts, c.start);
    var b := c.(lastPts := f.pts);
    assert num * 1000 * (b.lastPts - b.firstPts) == 0;
    AcceptKeeps(b, f, o, num, den);
    assert Accept(b, f) == Accept(c, f);
  }

  lemma NextRecordKeeps(s: State, f: Frame, now: int, o: Origin, num: int, den: int)
    requires Running(s, o, num, den) && ValidFrame(f, num, den) && s.lastPts <= f.pts
    ensures Running(Record(s, f, now), o, num, den)
  {
    assert WithStart(s, f, now) == s;
    DurationNonNegative(s, o, num, den);
    var b := if f.isKey && NeedFinalize(s) then Rotate(s) else s;
    if f.isKey && NeedFinalize(s) {
      RotateKeepsClock(s, o, num, den);
      RotateKeepsFragments(s);
    }
    assert WithFirst(b, f) == b;
    AcceptKeeps(b, f, o, num, den);
  }

  predicate StartsRecording(f: Frame) {
    f.kind == Video && f.isKey
  }

  /** Before the first key frame nothing is recorded; that frame fixes the origin. */
  lemma ProcessStarts(s: State, f: Frame, now: int, num: int, den: int)
    requires Untouched(s) && 0 < num && 0 < den && 0 < now
    requires f.kind == Video ==> ValidFrame(f, num, den)
    ensures if StartsRecording(f) then Running(Process(s, f, now), Origin(f.pts, ClockAt(f, now)), num, den)
            else Process(s, f, now) == s
  {
    if StartsRecording(f) {
      assert s.(keySeen := true).(keySeen := false) == s;
      FirstRecordKeeps(s.(keySeen := true), f, now, num, den);
    }
  }

  lemma ProcessKeeps(s: State, f: Frame, now: int, o: Origin, num: int, den: int)
    requires Running(s, o, num, den) && (f.kind == Video ==> ValidFrame(f, num, den))
    ensures Running(Process(s, f, now), o, num, den)
  {
    if f.kind == Video && (s.keySeen || f.isKey) && f.pts >= s.lastPts {
      var a := s.(keySeen := true);
      assert Running(a, o, num, den);
      NextRecordKeeps(a, f, now, o, num, den);
    }
  }

  // ------------------------------------------------------------- whole runs

  /** A frame and the wall-clock time it arrives at. */
  datatype Input = Input(frame: Frame, now: int)

  predicate ValidInput(i: Input, num: int, den: int) {
    0 < i.now && (i.frame.kind == Video ==> ValidFrame(i.frame, num, den))
  }

  function Run(s: State, inputs: seq<Input>): State
    decreases |inputs|
  {
    if inputs == [] then s else Run(Process(s, inputs[0].frame, inputs[0].now), inputs[1..])
  }

  /** Where the first key frame comes. */
  function FirstKey(inputs: seq<Input>): (k: nat)
    ensures k <= |inputs|
  {
    if inputs == [] || StartsRecording(inputs[0].frame) then 0 else 1 + FirstKey(inputs[1..])
  }

  /** The first key frame's timestamp and the time it was taken at. */
  function OriginOf(inputs: seq<Input>): Origin {
    var k := FirstKey(inputs);
    if k < |inputs| then Origin(inputs[k].frame.pts, ClockAt(inputs[k].frame, inputs[k].now)) else Origin(0, 0)
  }

  lemma {:induction false} RunKeeps(s: State, inputs: seq<Input>, o: Origin, num: int, den: int)
    requires Running(s, o, num, den) && forall i :: i in inputs ==> ValidInput(i, num, den)
    ensures Running(Run(s, inputs), o, num, den)
    decreases |inputs|
  {
    if inputs != [] {
      assert inputs[0] in inputs;
      ProcessKeeps(s, inputs[0].frame, inputs[0].now, o, num, den);
      RunKeeps(Process(s, inputs[0].frame, inputs[0].now), inputs[1..], o, num, den);
    }
  }

  lemma {:induction false} RunStarts(s: State, inputs: seq<Input>, num: int, den: int)
    requires Untouched(s) && 0 < num && 0 < den && forall i :: i in inputs ==> ValidInput(i, num, den)
    ensures if FirstKey(inputs) < |inputs| then Running(Run(s, inputs), OriginOf(inputs), num, den)
            else Run(s, inputs) == s
    decreases |inputs|
  {
    if inputs != [] {
      assert inputs[0] in inputs;
      var f, now := inputs[0].frame, inputs[0].now;
      ProcessStarts(s, f, now, num, den);
      if StartsRecording(f) {
        RunKeeps(Process(s, f, now), inputs[1..], OriginOf(inputs), num, den);
      } else {
        RunStarts(s, inputs[1..], num, den);
      }
    }
  }

  /** Fragment clock drift. However many frames come, and however many fragments
      they make, the reported start of the next fragment never runs ahead of the
      exact media time since the first key frame, and lags by less than one
      millisecond per fragment; with no fragment reported yet it is exact. It is a
      whole number of milliseconds after the first one. */
  lemma ClockDrift(mode: Mode, param: nat, inputs: seq<Input>, num: int, den: int)
    requires 0 < num && 0 < den && forall i :: i in inputs ==> ValidInput(i, num, den)
    requires FirstKey(inputs) < |inputs|
    ensures var s := Run(Fresh(mode, param), inputs);
            var lag, k := Lag(s, OriginOf(inputs), num, den), |s.finalized|;
            && (s.start - OriginOf(inputs).start) % 1000 == 0
            && 0 <= lag && if k == 0 then lag == 0 else lag < k * den
  {
    RunStarts(Fresh(mode, param), inputs, num, den);
    var k := |Run(Fresh(mode, param), inputs).finalized|;
    assert k * (den - 1) == k * den - k;
  }

  /** Over every run, each fragment handed on starts with a key frame and has
      non-negative, non-decreasing timestamps; the reported fragments follow each
      other without gap or overlap, one for each fragment completed; and in
      duration mode none of them is shorter than configured. */
  lemma FragmentsAreSound(mode: Mode, param: nat, inputs: seq<Input>, num: int, den: int)
    requires 0 < num && 0 < den && forall i :: i in inputs ==> ValidInput(i, num, den)
    ensures var s := Run(Fresh(mode, param), inputs);
            && GoodFragment(s.current) && (forall i :: 0 <= i < |s.done| ==> GoodFragment(s.done[i]))
            && |s.done| == |s.finalized| && Contiguous(s.finalized, s.start)
            && s.mode == mode && s.param == param && LongEnough(s)
  {
    RunStarts(Fresh(mode, param), inputs, num, den);
    RunKeepsMode(Fresh(mode, param), inputs);
  }

  lemma {:induction false} RunKeepsMode(s: State, inputs: seq<Input>)
    ensures Run(s, inputs).mode == s.mode && Run(s, inputs).param == s.param
    decreases |inputs|
  {
    if inputs != [] {
      RunKeepsMode(Process(s, inputs[0].frame, inputs[0].now), inputs[1..]);
    }
  }

  // ------------------------------------------------- where the stream is cut

  function TotalLength(ps: seq<Pushed>): nat {
    if ps == [] then 0 else TotalLength(ps[..|ps| - 1]) + ps[|ps| - 1].len
  }

  /** The media time from where the fragment's timestamps count to its last frame. */
  function Span(ps: seq<Pushed>): int {
    if ps == [] then 0 else ps[|ps| - 1].pts
  }

  /** The frames come up to the configured size in bytes, or to the configured
      duration in seconds of the time base num/den. */
  predicate Full(ps: seq<Pushed>, mode: Mode, param: nat, num: int, den: int) {
    match mode
    case Size => TotalLength(ps) >= param
    case Duration => num * 1000 * Span(ps) >= 1000 * param * den
    case Unknown => false
  }

  /** No key frame comes after the frames ahead of it have filled the fragment. */
  predicate CutInTime(ps: seq<Pushed>, mode: Mode, param: nat, num: int, den: int) {
    forall k :: 1 <= k < |ps| && ps[k].isKey ==> !Full(ps[..k], mode, param, num, den)
  }

  ghost predicate CutInv(s: State, num: int, den: int) {
    && s.size == TotalLength(s.current)
    && CutInTime(s.current, s.mode, s.param, num, den)
    && forall i :: 0 <= i < |s.done| ==>
                     Full(s.done[i], s.mode, s.param, num, den) && CutInTime(s.done[i], s.mode, s.param, num, den)
  }

  lemma QuotientReaches(a: int, b: int, k: int)
    requires 0 < b
    ensures a / b >= k <==> a >= k * b
  {
    var q := a / b;
    assert a == b * q + a % b;
    if q >= k {
      assert b * q >= b * k;
    } else {
      assert b * (q + 1) <= b * k;
    }
  }

  /** The fragment is finalized when its own frames fill it. */
  lemma NeedIsFull(s: State, o: Origin, num: int, den: int)
    requires ClockInv(s, o, num, den) && s.size == TotalLength(s.current)
    requires s.lastPts - s.firstPts == Span(s.current)
    ensures NeedFinalize(s) <==> Full(s.current, s.mode, s.param, num, den)
  {
    if s.mode == Duration {
      QuotientReaches(num * 1000 * Span(s.current), den, 1000 * s.param);
    }
  }

  /** A key frame that comes in order finalizes the current fragment exactly if the
      frames handed on so far fill it, and then it begins the next one; no other frame
      finalizes anything. */
  lemma FinalizesIff(s: State, f: Frame, now: int, o: Origin, num: int, den: int)
    requires Running(s, o, num, den) && s.size == TotalLength(s.current)
    requires f.kind == Video ==> ValidFrame(f, num, den)
    ensures var t := Process(s, f, now);
            if f.kind == Video && f.isKey && s.lastPts <= f.pts && Full(s.current, s.mode, s.param, num, den)
            then t.finalized == s.finalized + [Fragment(s.start, s.duration)] && t.done == s.done + [s.current]
                 && |t.current| == 1
            else t.finalized == s.finalized && t.done == s.done && s.current <= t.current
  {
    NeedIsFull(s, o, num, den);
  }

  lemma AcceptKeepsCut(s: State, f: Frame, num: int, den: int)
    requires CutInv(s, num, den)
    requires f.isKey && s.current != [] ==> !Full(s.current, s.mode, s.param, num, den)
    ensures CutInv(Accept(s, f), num, den)
  {
    var ps := Accept(s, f).current;
    var p := ps[|ps| - 1];
    assert ps[..|ps| - 1] == s.current;
    forall k | 1 <= k < |ps| && ps[k].isKey
      ensures !Full(ps[..k], s.mode, s.param, num, den)
    {
      assert k < |ps| - 1 ==> ps[..k] == s.current[..k];
    }
  }

  lemma RotateKeepsCut(s: State, num: int, den: int)
    requires CutInv(s, num, den) && Full(s.current, s.mode, s.param, num, den)
    ensures CutInv(Rotate(s), num, den)
  {
  }

  lemma ProcessKeepsCut(s: State, f: Frame, now: int, o: Origin, num: int, den: int)
    requires Running(s, o, num, den) && CutInv(s, num, den) && (f.kind == Video ==> ValidFrame(f, num, den))
    ensures CutInv(Process(s, f, now), num, den)
  {
    if f.kind == Video && (s.keySeen || f.isKey) && f.pts >= s.lastPts {
      var a := s.(keySeen := true);
      NeedIsFull(a, o, num, den);
      var b := if f.isKey && NeedFinalize(a) then Rotate(a) else a;
      if f.isKey && NeedFinalize(a) {
        RotateKeepsCut(a, num, den);
      }
      assert WithFirst(b, f) == b && WithStart(a, f, now) == a;
      AcceptKeepsCut(b, f, num, den);
    }
  }

  lemma ProcessStartsCut(s: State, f: Frame, now: int, num: int, den: int)
    requires Untouched(s) && s.size == 0 && StartsRecording(f) && ValidFrame(f, num, den)
    ensures CutInv(Process(s, f, now), num, den)
  {
    var a := WithStart(s.(keySeen := true), f, now);
    assert CutInv(a, num, den);
    assert NeedFinalize(a) ==> Full([], a.mode, a.param, num, den);
    var b := if NeedFinalize(a) then Rotate(a) else a;
    var c := WithFirst(b, f);
    assert CutInv(c, num, den) && c.current == [];
    AcceptKeepsCut(c, f, num, den);
  }

  lemma {:induction false} RunKeepsCut(s: State, inputs: seq<Input>, o: Origin, num: int, den: int)
    requires Running(s, o, num, den) && CutInv(s, num, den) && forall i :: i in inputs ==> ValidInput(i, num, den)
    ensures CutInv(Run(s, inputs), num, den)
    decreases |inputs|
  {
    if inputs != [] {
      var f, now := inputs[0].frame, inputs[0].now;
      assert inputs[0] in inputs;
      ProcessKeeps(s, f, now, o, num, den);
      ProcessKeepsCut(s, f, now, o, num, den);
      RunKeepsCut(Process(s, f, now), inputs[1..], o, num, den);
    }
  }

  lemma {:induction false} RunStartsCut(s: State, inputs: seq<Input>, num: int, den: int)
    requires Untouched(s) && s.size == 0 && 0 < num && 0 < den && forall i :: i in inputs ==> ValidInput(i, num, den)
    ensures CutInv(Run(s, inputs), num, den)
    decreases |inputs|
  {
    if inputs != [] {
      var f, now := inputs[0].frame, inputs[0].now;
      assert inputs[0] in inputs;
      ProcessStarts(s, f, now, num, den);
      if StartsRecording(f) {
        ProcessStartsCut(s, f, now, num, den);
        RunKeepsCut(Process(s, f, now), inputs[1..], OriginOf(inputs), num, den);
      } else {
        RunStartsCut(s, inputs[1..], num, den);
      }
    }
  }

  /** Over every run, every fragment completed is full, and neither in those nor in the
      current one does a key frame come after the frames ahead of it have filled it. */
  lemma FragmentsAreCutInTime(mode: Mode, param: nat, inputs: seq<Input>, num: int, den: int)
    requires 0 < num && 0 < den && forall i :: i in inputs ==> ValidInput(i, num, den)
    ensures var s := Run(Fresh(mode, param), inputs);
            && (forall i :: 0 <= i < |s.done| ==> Full(s.done[i], mode, param, num, den))
            && forall i :: 0 <= i < |s.done + [s.current]| ==>
                             CutInTime((s.done + [s.current])[i], mode, param, num, den)
  {
    RunStartsCut(Fresh(mode, param), inputs, num, den);
    RunKeepsMode(Fresh(mode, param), inputs);
  }

  // -------------------------------------------------- what is handed on

  /** A frame by its own timestamps. */
  datatype Stamp = Stamp(pts: int, dts: int, isKey: bool, len: nat)

  function StampOf(f: Frame): Stamp {
    Stamp(f.pts, f.dts, f.isKey, f.len)
  }

  /** Timestamps counted from a base, counted from zero again. */
  function Rebased(ps: seq<Pushed>, pts: int, dts: int): seq<Stamp> {
    seq(|ps|, i requires 0 <= i < |ps| => Stamp(pts + ps[i].pts, dts + ps[i].dts, ps[i].isKey, ps[i].len))
  }

  /** The frames of a list of fragments, and the timestamps the next one counts from:
      those of the last frame. */
  datatype Restored = Restored(frames: seq<Stamp>, pts: int, dts: int)

  function Restore(fragments: seq<seq<Pushed>>, pts: int, dts: int): Restored {
    if fragments == [] then Restored([], pts, dts)
    else
      var n := |fragments| - 1;
      var r, ps := Restore(fragments[..n], pts, dts), fragments[n];
      var frames := r.frames + Rebased(ps, r.pts, r.dts);
      if ps == [] then Restored(frames, r.pts, r.dts)
      else Restored(frames, r.pts + ps[|ps| - 1].pts, r.dts + ps[|ps| - 1].dts)
  }

  /** The video frames to record: none ahead of a key frame, and none from one that
      comes out of order on until the next key frame. */
  function ToRecord(inputs: seq<Input>, seen: bool, last: int): seq<Stamp>
    decreases |inputs|
  {
    if inputs == [] then []
    else
      var f, rest := inputs[0].frame, inputs[1..];
      if f.kind != Video || (!seen && !f.isKey) then ToRecord(rest, seen, last)
      else if f.pts < last then ToRecord(rest, false, last)
      else [StampOf(f)] + ToRecord(rest, true, f.pts)
  }

  /** Whether a key frame has been seen since the last frame out of order. */
  function SeenNext(f: Frame, seen: bool, last: int): bool {
    if f.kind == Video && (seen || f.isKey) then f.pts >= last else seen
  }

  /** The fragments so far, the current one included, hold these frames of a recording
      that began at these timestamps. */
  ghost predicate Holds(s: State, frames: seq<Stamp>, pts: int, dts: int) {
    && Restore(s.done, pts, dts).pts == s.firstPts && Restore(s.done, pts, dts).dts == s.firstDts
    && frames == Restore(s.done, pts, dts).frames + Rebased(s.current, s.firstPts, s.firstDts)
    && (s.current != [] ==>
          && s.lastPts == s.firstPts + s.current[|s.current| - 1].pts
          && s.lastDts == s.firstDts + s.current[|s.current| - 1].dts)
  }

  lemma AcceptHolds(s: State, f: Frame, frames: seq<Stamp>, pts: int, dts: int)
    requires Holds(s, frames, pts, dts) && f.pts != NO_PTS && f.dts != NO_PTS
    ensures Holds(Accept(s, f), frames + [StampOf(f)], pts, dts)
  {
    var t := Accept(s, f);
    assert Rebased(t.current, t.firstPts, t.firstDts) == Rebased(s.current, s.firstPts, s.firstDts) + [StampOf(f)];
  }

  lemma RotateHolds(s: State, frames: seq<Stamp>, pts: int, dts: int)
    requires Holds(s, frames, pts, dts) && s.current != []
    ensures Holds(Rotate(s), frames, pts, dts)
  {
    var t := Rotate(s);
    assert t.done[..|t.done| - 1] == s.done;
    assert Rebased(t.current, t.firstPts, t.firstDts) == [];
  }

  lemma ProcessHolds(s: State, f: Frame, now: int, frames: seq<Stamp>, o: Origin, dts: int, num: int, den: int)
    requires Running(s, o, num, den) && Holds(s, frames, o.pts, dts) && (f.kind == Video ==> ValidFrame(f, num, den))
    ensures var i := Input(f, now);
            && Holds(Process(s, f, now), frames + ToRecord([i], s.keySeen, s.lastPts), o.pts, dts)
            && Process(s, f, now).lastPts == (if ToRecord([i], s.keySeen, s.lastPts) == [] then s.lastPts else f.pts)
            && Process(s, f, now).keySeen == SeenNext(f, s.keySeen, s.lastPts)
  {
    var i := Input(f, now);
    assert [i][1..] == [];
    if f.kind == Video && (s.keySeen || f.isKey) && f.pts >= s.lastPts {
      var a := s.(keySeen := true);
      var b := if f.isKey && NeedFinalize(a) then Rotate(a) else a;
      if f.isKey && NeedFinalize(a) {
        RotateHolds(a, frames, o.pts, dts);
      }
      assert WithFirst(b, f) == b && WithStart(a, f, now) == a;
      AcceptHolds(b, f, frames, o.pts, dts);
      assert ToRecord([i], s.keySeen, s.lastPts) == [StampOf(f)];
    } else {
      assert frames + [] == frames;
    }
  }

  lemma ToRecordNext(inputs: seq<Input>, seen: bool, last: int)
    requires inputs != []
    ensures var f, one := inputs[0].frame, ToRecord(inputs[..1], seen, last);
            ToRecord(inputs, seen, last)
            == one + ToRecord(inputs[1..], SeenNext(f, seen, last), if one == [] then last else f.pts)
  {
    assert inputs[..1] == [inputs[0]] && [inputs[0]][1..] == [];
  }

  lemma Appended(frames: seq<Stamp>, one: seq<Stamp>, rest: seq<Stamp>)
    ensures frames + one + rest == frames + (one + rest)
  {
  }

  lemma {:induction false} RunHolds(
    s: State, inputs: seq<Input>, frames: seq<Stamp>, o: Origin, dts: int, num: int, den: int)
    requires Running(s, o, num, den) && Holds(s, frames, o.pts, dts)
    requires forall i :: i in inputs ==> ValidInput(i, num, den)
    ensures Holds(Run(s, inputs), frames + ToRecord(inputs, s.keySeen, s.lastPts), o.pts, dts)
    decreases |inputs|
  {
    if inputs == [] {
      assert frames + [] == frames;
    } else {
      var f, now := inputs[0].frame, inputs[0].now;
      assert inputs[0] in inputs && inputs[..1] == [Input(f, now)];
      ProcessKeeps(s, f, now, o, num, den);
      ProcessHolds(s, f, now, frames, o, dts, num, den);
      ToRecordNext(inputs, s.keySeen, s.lastPts);
      var one, t := ToRecord(inputs[..1], s.keySeen, s.lastPts), Process(s, f, now);
      RunHolds(t, inputs[1..], frames + one, o, dts, num, den);
      Appended(frames, one, ToRecord(inputs[1..], t.keySeen, t.lastPts));
    }
  }

  lemma ProcessStartsHolds(s: State, f: Frame, now: int, num: int, den: int)
    requires Untouched(s) && StartsRecording(f) && ValidFrame(f, num, den)
    ensures var t := Process(s, f, now); Holds(t, [StampOf(f)], f.pts, f.dts) && t.keySeen && t.lastPts == f.pts
  {
    var a := WithStart(s.(keySeen := true), f, now);
    var b := if NeedFinalize(a) then Rotate(a) else a;
    var c := WithFirst(b, f);
    assert b.done == [] || (b.done == [[]] && b.done[..0] == []);
    assert Holds(c, [], f.pts, f.dts);
    AcceptHolds(c, f, [], f.pts, f.dts);
    assert [] + [StampOf(f)] == [StampOf(f)];
  }

  lemma {:induction false} RunStartsHolds(s: State, inputs: seq<Input>, num: int, den: int)
    requires Untouched(s) && 0 < num && 0 < den && forall i :: i in inputs ==> ValidInput(i, num, den)
    requires FirstKey(inputs) < |inputs|
    ensures var first := inputs[FirstKey(inputs)].frame;
            Holds(Run(s, inputs), ToRecord(inputs, false, 0), first.pts, first.dts)
    decreases |inputs|
  {
    var f, now := inputs[0].frame, inputs[0].now;
    assert inputs[0] in inputs;
    ProcessStarts(s, f, now, num, den);
    if StartsRecording(f) {
      ProcessStartsHolds(s, f, now, num, den);
      RunHolds(Process(s, f, now), inputs[1..], [StampOf(f)], OriginOf(inputs), f.dts, num, den);
    } else {
      RunStartsHolds(s, inputs[1..], num, den);
    }
  }

  /** Over every run, the fragments together hold exactly the frames to record, in order
      and with their key marks and lengths: counting each fragment's timestamps from the
      last frame ahead of it gives the timestamps they came with. */
  lemma FramesAreRestored(mode: Mode, param: nat, inputs: seq<Input>, num: int, den: int)
    requires 0 < num && 0 < den && forall i :: i in inputs ==> ValidInput(i, num, den)
    requires FirstKey(inputs) < |inputs|
    ensures var s, first := Run(Fresh(mode, param), inputs), inputs[FirstKey(inputs)].frame;
            Restore(s.done + [s.current], first.pts, first.dts).frames == ToRecord(inputs, false, 0)
  {
    RunStartsHolds(Fresh(mode, param), inputs, num, den);
    var s := Run(Fresh(mode, param), inputs);
    assert (s.done + [s.current])[..|s.done|] == s.done;
  }

  /** The first fragment starts at the time the source gives with its first key frame,
      if that is less than thirty seconds old, and else at the present time. */
  lemma StartsAt(mode: Mode, param: nat, f: Frame, now: int, num: int, den: int)
    requires 0 < num && 0 < den && 0 < now && StartsRecording(f) && ValidFrame(f, num, den)
    ensures var o := OriginOf([Input(f, now)]);
            && o.start == Process(Fresh(mode, param), f, now).start
            && (0 < f.realtime && now < f.realtime + 30 * 1_000_000 ==> o.start == f.realtime)
            && (f.realtime == 0 || f.realtime + 30 * 1_000_000 <= now ==> o.start == now)
  {
    ProcessStarts(Fresh(mode, param), f, now, num, den);
  }

  // ------------------------------------------------- frames without a timestamp

  /** A video frame without a timestamp finalizes nothing and is not handed on, but the
      timestamps of the fragment now count from nowhere. */
  lemma Unstamped(s: State, f: Frame, now: int)
    requires NO_PTS <= s.firstPts && f.kind == Video && (s.keySeen || f.isKey) && f.pts == NO_PTS
    ensures var t := Process(s, f, now);
            && t.finalized == s.finalized && t.done == s.done && t.current == s.current
            && t.size == s.size && t.duration == s.duration && t.lastPts == s.lastPts && t.lastDts == s.lastDts
            && t.firstPts == NO_PTS && t.firstDts == f.dts && t.keySeen
  {
  }

  /** So the next frame counts from zero again: the timestamps in the fragment go back
      exactly if they had come further than zero. */
  lemma UnstampedGoesBackIff(s: State, f: Frame, g: Frame, now: int, o: Origin, num: int, den: int)
    requires Running(s, o, num, den) && s.keySeen
    requires f.kind == Video && f.pts == NO_PTS && !g.isKey
    requires g.kind == Video && ValidFrame(g, num, den) && s.lastPts <= g.pts
    ensures var t := Process(Process(s, f, now), g, now);
            && t.done == s.done && t.current == s.current + [Pushed(0, 0, false, g.len)] && t.duration == 0
            && (GoodFragment(t.current) <==> s.lastPts == s.firstPts)
  {
    Unstamped(s, f, now);
    var a := Process(s, f, now);
    var c := WithFirst(a, g);
    assert WithStart(a, g, now) == a && c.firstPts == g.pts;
    assert num * 1000 * (g.pts - c.firstPts) == 0;
    var ps := s.current + [Pushed(0, 0, false, g.len)];
    assert Process(a, g, now).current == ps;
    assert ps[|s.current| - 1].pts == s.lastPts - s.firstPts;
    if s.lastPts == s.firstPts {
      AppendKeepsGood(s.current, Pushed(0, 0, false, g.len), 0);
    } else {
      assert ps[|s.current|].pts == 0 < ps[|s.current| - 1].pts;
    }
  }

  /** A first key frame without a decoding time is dropped, but the next video frame is
      recorded, and counted from: the recording begins as it should exactly if that one is
      a key frame too. */
  lemma UndecodedStartIff(s: State, f: Frame, g: Frame, now: int, num: int, den: int)
    requires Untouched(s) && StartsRecording(f) && 0 < f.pts && f.dts == NO_PTS && 0 < now && 0 <= f.realtime
    requires g.kind == Video && ValidFrame(g, num, den)
    ensures Process(s, f, now).current == [] && Process(s, f, now).keySeen
    ensures var t := Process(Process(s, f, now), g, now);
            t.current == [Pushed(0, 0, g.isKey, g.len)] && (GoodFragment(t.current) <==> g.isKey)
  {
    var a := WithStart(s.(keySeen := true), f, now);
    var b := if NeedFinalize(a) then Rotate(a) else a;
    assert Process(s, f, now) == WithFirst(b, f);
    var c := Process(s, f, now);
    assert WithStart(c, g, now) == c;
    var d := if g.isKey && NeedFinalize(c) then Rotate(c) else c;
    assert d.current == [] && WithFirst(d, g).firstPts == g.pts && WithFirst(d, g).firstDts == g.dts;
  }

  /** Later on such a frame is handed on without one, and the last decoding time stays. */
  lemma Undecoded(s: State, f: Frame, now: int, o: Origin, num: int, den: int)
    requires Running(s, o, num, den) && s.keySeen && f.kind == Video && !f.isKey && s.lastPts <= f.pts && f.dts == NO_PTS
    ensures var t := Process(s, f, now);
            t.current == s.current + [Pushed(f.pts - s.firstPts, NO_PTS, false, f.len)] && t.lastDts == s.lastDts
  {
  }

  /** Closing reports the last fragment right after the ones before it, and leaves
      the sink ready for another recording. */
  lemma CloseReportsRest(s: State, o: Origin, num: int, den: int)
    requires Running(s, o, num, den)
    ensures var t := Close(s, true);
            && Contiguous(t.finalized, if s.duration > 0 then s.start + 1000 * s.duration else s.start)
            && s.finalized <= t.finalized && |t.finalized| == |s.finalized| + (if s.duration > 0 then 1 else 0)
            && Close(s, false).finalized == s.finalized
            && t.done == s.done + [s.current] && GoodFragment(s.current)
            && t.start == t.firstPts == t.lastPts == t.duration == 0 && !t.keySeen
            && t.firstDts == t.lastDts == 0 && t.current == [] && t.size == s.size
  {
  }

  // --------------------------------------------------------------- the sink

  /** The sink itself; fields are updated frame by frame. */
  class Sink {
    const mode: Mode
    const param: nat
    var size: nat
    var start: int
    var duration: int
    var firstPts: int
    var firstDts: int
    var lastPts: int
    var lastDts: int
    var keySeen: bool
    ghost var finalized: seq<Fragment>
    ghost var done: seq<seq<Pushed>>
    ghost var current: seq<Pushed>

    ghost function View(): State
      reads this
    {
      State(mode, param, size, start, duration, firstPts, firstDts, lastPts, lastDts, keySeen,
            finalized, done, current)
    }

    constructor (mode: Mode, param: nat)
      ensures View() == Fresh(mode, param)
    {
      this.mode, this.param := mode, param;
      size, start, duration := 0, 0, 0;
      firstPts, firstDts, lastPts, lastDts, keySeen := 0, 0, 0, 0, false;
      finalized, done, current := [], [], [];
    }

    method IsFull() returns (b: bool)
      ensures b == NeedFinalize(View())
    {
      match mode
      case Size => b := size >= param;
      case Duration => b := duration >= 1000 * param;
      case Unknown => b := false;
    }

    method RotateStats()
      modifies this
      ensures View() == Rotate(old(View()))
    {
      finalized := finalized + [Fragment(start, duration)];
      done, current := done + [current], [];
      start := start + 1000 * duration;
      duration, size := 0, 0;
      firstPts, firstDts := lastPts, lastDts;
    }

    /** The fragment holds one frame more, and lasts the media time from its first
        timestamp to this one, in milliseconds with the fraction cut. */
    method UpdateStats(f: Frame)
      modifies this`size, this`duration
      ensures size == old(size) + f.len
      ensures Truncates(duration, f.num * 1000 * (f.pts - firstPts), f.den)
    {
      TruncDivTruncates(f.num * 1000 * (f.pts - firstPts), f.den);
      size := size + f.len;
      duration := TruncDiv(f.num * 1000 * (f.pts - firstPts), f.den);
    }

    method ProcessFrame(f: Frame, now: int) returns (known: bool)
      modifies this
      ensures known == (f.kind != Other)
      ensures View() == Process(old(View()), f, now)
    {
      known := f.kind != Other;
      if f.kind == Video {
        if !keySeen {
          if !f.isKey {
            return;
          }
          keySeen := true;
        }
        if f.pts != NO_PTS && f.pts < lastPts {
          keySeen := false;
          return;
        }
        RecordFrame(f, now);
      }
    }

    method RecordFrame(f: Frame, now: int)
      modifies this
      ensures View() == Record(old(View()), f, now)
    {
      if start == 0 {
        start := ClockAt(f, now);
      }
      assert View() == WithStart(old(View()), f, now);
      var full := IsFull();
      if f.pts != NO_PTS && f.isKey && full {
        RotateStats();
      }
      HandOn(f);
    }

    method HandOn(f: Frame)
      modifies this
      ensures var c := WithFirst(old(View()), f);
              View() == if c.firstPts == NO_PTS || c.firstDts == NO_PTS then c else Accept(c, f)
    {
      if firstPts == 0 || firstPts > f.pts || firstPts == NO_PTS || firstDts == NO_PTS {
        firstPts, firstDts := f.pts, f.dts;
      }
      if firstPts == NO_PTS || firstDts == NO_PTS {
        return;
      }
      UpdateStats(f);
      ghost var elapsed := f.num * 1000 * (f.pts - firstPts);
      TruncDivTruncates(elapsed, f.den);
      TruncatesOnce(duration, TruncDiv(elapsed, f.den), elapsed, f.den);
      var pts, dts := NO_PTS, NO_PTS;
      if f.pts != NO_PTS {
        lastPts := f.pts;
        pts := f.pts - firstPts;
      }
      if f.dts != NO_PTS {
        lastDts := f.dts;
        dts := f.dts - firstDts;
      }
      current := current + [Pushed(pts, dts, f.isKey, f.len)];
    }

    method Finish(named: bool)
      modifies this
      ensures View() == Close(old(View()), named)
    {
      if named && duration > 0 {
        finalized := finalized + [Fragment(start, duration)];
      }
      done, current := done + [current], [];
      start, duration, keySeen := 0, 0, false;
      firstPts, firstDts, lastPts, lastDts := 0, 0, 0, 0;
    }
  }
}
