/** The bounded frame queue between a source and a sink. Waiting on the condition
    variable is modelled by when a step is enabled. Every frame carries its place in
    the sequence of all pushes; a null frame counts as a frame without video. */
module FrameQueue {

  const MAX_ITEMS: nat := 90

  datatype Frame = Frame(video: bool, key: bool)
  datatype Item = Item(place: nat, frame: Frame)
  datatype Direction = DropFront | DropBack

  /** pushed: every frame whose push came through; blocked: those whose push waits for
      room; refused counts pushes during a flush, flushed the frames a flush threw away. */
  datatype Queue = Queue(
    drop: bool, direction: Direction, items: seq<Item>, waitKey: bool, flushing: bool,
    videoDropped: nat, audioDropped: nat,
    pushed: seq<Frame>, popped: seq<Item>, refused: nat, flushed: nat, blocked: multiset<Frame>)

  function Empty(drop: bool, direction: Direction): Queue {
    Queue(drop, direction, [], false, false, 0, 0, [], [], 0, 0, multiset{})
  }

  predicate Full(q: Queue) {
    |q.items| >= MAX_ITEMS
  }

  /** Whether this frame may be dropped now, with the queue full or not; a dropped
      video frame makes the queue wait for a key frame. */
  function CanDrop(q: Queue, full: bool, f: Frame): (Queue, bool) {
    if !q.drop || !(full || (f.video && q.waitKey)) then (q, false)
    else if f.video then
      var can := full || !f.key;
      (q.(waitKey := can, videoDropped := q.videoDropped + (if can then 1 else 0)), can)
    else (q.(audioDropped := q.audioDropped + 1), true)
  }

  /** Drops old frames from the front while that is allowed. */
  function DropOld(q: Queue): Queue
    decreases |q.items|
  {
    if q.items == [] then q
    else
      var r := CanDrop(q, Full(q), q.items[0].frame);
      if r.1 then DropOld(r.0.(items := q.items[1..])) else r.0
  }

  function Store(q: Queue, f: Frame): Queue {
    q.(items := q.items + [Item(|q.pushed|, f)], pushed := q.pushed + [f])
  }

  function Push(q: Queue, f: Frame): Queue {
    if q.flushing then q.(pushed := q.pushed + [f], refused := q.refused + 1)
    else if q.direction == DropFront then Store(DropOld(q), f)
    else
      var r := CanDrop(q, Full(q), f);
      if r.1 then r.0.(pushed := q.pushed + [f]) else Store(r.0, f)
  }

  function Pop(q: Queue): Queue {
    if q.items == [] then q else q.(items := q.items[1..], popped := q.popped + [q.items[0]])
  }

  function Flush(q: Queue): Queue {
    q.(flushing := true, items := [], flushed := q.flushed + |q.items|)
  }

  /** Blocking: a push begins to wait for room; Waking: it finds some. */
  datatype Event =
    | Pushing(frame: Frame) | Blocking(frame: Frame) | Waking(frame: Frame) | Popping | Flushing | FlushStop

  /** A push waits for room unless frames may be dropped. One that waits is not refused
      by a flush that begins meanwhile. */
  predicate Enabled(q: Queue, e: Event) {
    match e
    case Pushing(_) => q.flushing || !Full(q) || q.drop
    case Blocking(_) => !q.flushing && Full(q) && !q.drop
    case Waking(f) => f in q.blocked && !Full(q)
    case _ => true
  }

  function Apply(q: Queue, e: Event): Queue {
    match e
    case Pushing(f) => Push(q, f)
    case Blocking(f) => q.(blocked := q.blocked + multiset{f})
    case Waking(f) => Store(q.(blocked := q.blocked - multiset{f}), f)
    case Popping => Pop(q)
    case Flushing => Flush(q)
    case FlushStop => q.(flushing := false)
  }

  // -------------------------------------------------------------- invariant

  /** These are pushed frames, in the order they were pushed, each at most once. */
  ghost predicate InOrder(s: seq<Item>, pushed: seq<Frame>) {
    && (forall i, j :: 0 <= i < j < |s| ==> s[i].place < s[j].place)
    && (forall i :: 0 <= i < |s| ==> s[i].place < |pushed| && pushed[s[i].place] == s[i].frame)
  }

  ghost predicate Conserved(q: Queue) {
    |q.pushed| == |q.popped| + |q.items| + q.videoDropped + q.audioDropped + q.refused + q.flushed
  }

  ghost predicate Inv(q: Queue) {
    && |q.items| <= MAX_ITEMS
    && InOrder(q.popped + q.items, q.pushed)
    && Conserved(q)
  }

  lemma InOrderWithoutHead(a: seq<Item>, b: seq<Item>, pushed: seq<Frame>)
    requires b != [] && InOrder(a + b, pushed)
    ensures InOrder(a + b[1..], pushed)
  {
    var s, t := a + b, a + b[1..];
    assert forall i :: 0 <= i < |t| ==> t[i] == s[if i < |a| then i else i + 1];
  }

  lemma InOrderWithNewest(s: seq<Item>, pushed: seq<Frame>, f: Frame)
    requires InOrder(s, pushed)
    ensures InOrder(s + [Item(|pushed|, f)], pushed + [f]) && InOrder(s, pushed + [f])
  {
  }

  /** Dropping old frames counts each of them, keeps the order of the rest, and
      makes room in a full queue that may drop. */
  lemma {:induction false} DropOldKeeps(q: Queue)
    requires InOrder(q.popped + q.items, q.pushed)
    ensures var r := DropOld(q);
            && r.pushed == q.pushed && r.popped == q.popped && r.refused == q.refused && r.flushed == q.flushed
            && InOrder(r.popped + r.items, r.pushed)
            && |r.items| + r.videoDropped + r.audioDropped == |q.items| + q.videoDropped + q.audioDropped
            && |r.items| <= |q.items| && (Full(q) && q.drop ==> |r.items| < |q.items|)
    decreases |q.items|
  {
    if q.items != [] {
      var r := CanDrop(q, Full(q), q.items[0].frame);
      if r.1 {
        InOrderWithoutHead(q.popped, q.items, q.pushed);
        DropOldKeeps(r.0.(items := q.items[1..]));
      }
    }
  }

  /** Frames are dropped only if the queue allows it, and only when it is full or, with a
      key frame waited for, if they are dependent video; a dropped frame counts as what it
      is. The wait begins with a dropped video frame and ends with a key frame that comes
      when there is room. */
  lemma DropsIff(q: Queue, full: bool, f: Frame)
    ensures var (r, dropped) := CanDrop(q, full, f);
            && (dropped <==> q.drop && (full || (f.video && !f.key && q.waitKey)))
            && r.videoDropped == q.videoDropped + (if dropped && f.video then 1 else 0)
            && r.audioDropped == q.audioDropped + (if dropped && !f.video then 1 else 0)
            && (r.waitKey <==> (dropped && f.video) || (q.waitKey && !(q.drop && f.video && f.key && !full)))
            && r == q.(waitKey := r.waitKey, videoDropped := r.videoDropped, audioDropped := r.audioDropped)
  {
  }

  /** With the new frames to drop, a push stores its frame at the end exactly unless that
      very frame is dropped; the old frames stay. */
  lemma PushBackStoresIff(q: Queue, f: Frame)
    requires !q.flushing && q.direction == DropBack
    ensures var t := Push(q, f);
            && t.items == q.items + (if q.drop && (Full(q) || (f.video && !f.key && q.waitKey)) then []
                                     else [Item(|q.pushed|, f)])
            && t.pushed == q.pushed + [f] && t.popped == q.popped
            && t.refused == q.refused && t.flushed == q.flushed
  {
    DropsIff(q, Full(q), f);
  }

  function VideoCount(items: seq<Item>): nat {
    if items == [] then 0 else (if items[0].frame.video then 1 else 0) + VideoCount(items[1..])
  }

  /** The two counters count what is dropped from the front, each kind its own. */
  lemma {:induction false} DropOldCounts(q: Queue)
    ensures var r := DropOld(q);
            && r.videoDropped + VideoCount(r.items) == q.videoDropped + VideoCount(q.items)
            && r.audioDropped + |r.items| - VideoCount(r.items) == q.audioDropped + |q.items| - VideoCount(q.items)
    decreases |q.items|
  {
    if q.items != [] {
      var r := CanDrop(q, Full(q), q.items[0].frame);
      if r.1 {
        DropOldCounts(r.0.(items := q.items[1..]));
      }
    }
  }

  /** With room and no wait for a key frame, or if nothing may be dropped, a push from
      either end drops nothing. */
  lemma PushWithRoom(q: Queue, f: Frame)
    requires !q.flushing && (!q.drop || (!Full(q) && !q.waitKey))
    ensures Push(q, f) == q.(items := q.items + [Item(|q.pushed|, f)], pushed := q.pushed + [f])
  {
    DropsIff(q, Full(q), f);
    if q.items != [] {
      DropsIff(q, Full(q), q.items[0].frame);
    }
  }

  /** A full queue with audio at the front that waits for no key frame drops just that. */
  lemma PushOverAudio(q: Queue, f: Frame)
    requires !q.flushing && q.direction == DropFront && q.drop && |q.items| == MAX_ITEMS
    requires !q.waitKey && !q.items[0].frame.video
    ensures Push(q, f)
            == q.(items := q.items[1..] + [Item(|q.pushed|, f)], pushed := q.pushed + [f],
                  audioDropped := q.audioDropped + 1)
  {
    var r := q.(items := q.items[1..], audioDropped := q.audioDropped + 1);
    DropsIff(q, true, q.items[0].frame);
    DropsIff(r, false, r.items[0].frame);
    assert DropOld(r) == r && DropOld(q) == DropOld(r);
  }

  /** A push during a flush is refused, and a flush empties the queue. */
  lemma FlushRefuses(q: Queue, f: Frame)
    ensures q.flushing ==> Push(q, f) == q.(pushed := q.pushed + [f], refused := q.refused + 1)
    ensures Flush(q).items == [] && Flush(q).flushing && Flush(q).flushed == q.flushed + |q.items|
    ensures Flush(q) == q.(flushing := true, items := [], flushed := Flush(q).flushed)
    ensures q.items != [] ==>
              && Pop(q).items == q.items[1..] && Pop(q).popped == q.popped + [q.items[0]]
              && Pop(q) == q.(items := Pop(q).items, popped := Pop(q).popped)
  {
  }

  /** What the other operations change: a push that has to wait is remembered, and once
      there is room its frame goes to the end whether or not the queue is being flushed;
      a flush throws everything away and refuses pushes until it is stopped. */
  lemma WaitingAndFlushing(q: Queue, e: Event)
    requires Enabled(q, e)
    ensures var t := Apply(q, e);
            && (e.Blocking? ==> t == q.(blocked := q.blocked + multiset{e.frame}))
            && (e.Waking? ==>
                  t == q.(items := q.items + [Item(|q.pushed|, e.frame)], pushed := q.pushed + [e.frame],
                          blocked := t.blocked)
                  && t.blocked + multiset{e.frame} == q.blocked)
            && (e.Flushing? ==> t.items == [] && t.flushing && t.flushed == q.flushed + |q.items|)
            && (t.flushing <==> e.Flushing? || (q.flushing && !e.FlushStop?))
            && (!e.Blocking? && !e.Waking? ==> t.blocked == q.blocked)
            && (e.FlushStop? ==> t == q.(flushing := false))
  {
    if e.Pushing? {
      PushKeepsRest(q, e.frame);
    }
  }

  lemma PushKeepsRest(q: Queue, f: Frame)
    ensures Push(q, f).blocked == q.blocked && Push(q, f).flushing == q.flushing
  {
    DropOldKeepsRest(q);
    DropsIff(q, Full(q), f);
  }

  lemma {:induction false} DropOldKeepsRest(q: Queue)
    ensures var r := DropOld(q);
            r == q.(items := r.items, waitKey := r.waitKey, videoDropped := r.videoDropped, audioDropped := r.audioDropped)
    decreases |q.items|
  {
    if q.items != [] {
      var r := CanDrop(q, Full(q), q.items[0].frame);
      if r.1 {
        DropOldKeepsRest(r.0.(items := q.items[1..]));
      }
    }
  }

  /** A frame a decoder can begin with. */
  predicate Decodable(f: Frame) {
    !f.video || f.key
  }

  /** A push that loses video, or comes while the queue waits for a key frame. */
  predicate LosesVideo(q: Queue) {
    q.drop && (q.waitKey || (Full(q) && q.items[0].frame.video))
  }

  /** After old frames were dropped, no video frame that depends on a dropped one is
      left at the front. */
  lemma {:induction false} FrontAfterDrop(q: Queue)
    requires LosesVideo(q)
    ensures DropOld(q).items != [] ==> Decodable(DropOld(q).items[0].frame)
    decreases |q.items|
  {
    if q.items != [] {
      var r := CanDrop(q, Full(q), q.items[0].frame);
      if r.1 {
        FrontAfterDrop(r.0.(items := q.items[1..]));
      }
    }
  }

  /** One of the items from index i on is a frame a decoder can begin with. */
  predicate DecodableFrom(items: seq<Item>, i: nat) {
    exists j :: i <= j < |items| && Decodable(items[j].frame)
  }

  lemma DecodableInRest(items: seq<Item>)
    requires items != []
    ensures DecodableFrom(items, 1) <==> DecodableFrom(items[1..], 0)
    ensures DecodableFrom(items, 0) <==> Decodable(items[0].frame) || DecodableFrom(items, 1)
  {
    var rest := items[1..];
    if DecodableFrom(items, 1) {
      var j :| 1 <= j < |items| && Decodable(items[j].frame);
      assert Decodable(rest[j - 1].frame);
    }
    if DecodableFrom(rest, 0) {
      var j :| 0 <= j < |rest| && Decodable(rest[j].frame);
      assert Decodable(items[j + 1].frame);
    }
  }

  /** While the queue waits for a key frame and is not full, it drops exactly up to
      the first frame a decoder can begin with. */
  lemma {:induction false} DropsUntilDecodable(q: Queue)
    requires q.drop && q.waitKey && !Full(q)
    ensures DropOld(q).items != [] <==> DecodableFrom(q.items, 0)
    decreases |q.items|
  {
    if q.items != [] {
      DecodableInRest(q.items);
      if !Decodable(q.items[0].frame) {
        DropsUntilDecodable(CanDrop(q, false, q.items[0].frame).0.(items := q.items[1..]));
      }
    }
  }

  /** Of a full queue the first frame always goes. */
  predicate KeepsOne(q: Queue) {
    DecodableFrom(q.items, if Full(q) then 1 else 0)
  }

  lemma DropKeepsOneIff(q: Queue)
    requires LosesVideo(q) && |q.items| <= MAX_ITEMS
    ensures DropOld(q).items != [] <==> KeepsOne(q)
  {
    if Full(q) {
      DropsUntilDecodable(CanDrop(q, true, q.items[0].frame).0.(items := q.items[1..]));
      DecodableInRest(q.items);
    } else {
      DropsUntilDecodable(q);
    }
  }

  /** The queue does not hold back the new frame itself: after a push that loses video,
      the frame at the front is one a decoder can begin with exactly when the new frame
      is one, or one of the old frames is that the push does not have to drop. */
  lemma FrontAfterPushIff(q: Queue, f: Frame)
    requires LosesVideo(q) && !q.flushing && q.direction == DropFront && |q.items| <= MAX_ITEMS
    ensures Push(q, f).items != []
    ensures Decodable(Push(q, f).items[0].frame) <==> KeepsOne(q) || Decodable(f)
  {
    FrontAfterDrop(q);
    DropKeepsOneIff(q);
  }

  predicate Key(f: Frame) {
    f.video && f.key
  }

  /** A video frame that depends on the one before. */
  predicate Dependent(f: Frame) {
    !Decodable(f)
  }

  /** Every dependent video frame has a key frame ahead of it in the queue: the first
      video frame, if there is one, is a key frame. */
  predicate VideoBeginsWithKey(items: seq<Item>) {
    forall k :: 0 <= k < |items| && Dependent(items[k].frame) ==> KeyBetween(items, 0, k)
  }

  predicate KeyBetween(items: seq<Item>, i: nat, k: nat)
    requires k <= |items|
  {
    exists j :: i <= j < k && Key(items[j].frame)
  }

  predicate AudioBetween(items: seq<Item>, i: nat, k: nat)
    requires k <= |items|
  {
    exists j :: i <= j < k && !items[j].frame.video
  }

  /** Where the queue goes on after old frames were dropped: behind nothing but
      dependent frames, at a frame a decoder can begin with or at the end. */
  ghost predicate GoesOnAt(q: Queue, from: nat, n: nat) {
    && from <= n <= |q.items| && DropOld(q).items == q.items[n..]
    && (forall j :: from <= j < n ==> Dependent(q.items[j].frame))
    && (n < |q.items| ==> Decodable(q.items[n].frame))
  }

  lemma {:induction false} DropsDependent(q: Queue) returns (n: nat)
    requires q.drop && q.waitKey && !Full(q)
    ensures GoesOnAt(q, 0, n)
    decreases |q.items|
  {
    n := 0;
    if q.items != [] && !Decodable(q.items[0].frame) {
      var r := CanDrop(q, false, q.items[0].frame).0.(items := q.items[1..]);
      var m := DropsDependent(r);
      n := m + 1;
      assert q.items[n..] == r.items[m..];
      forall j | 0 <= j < n
        ensures Dependent(q.items[j].frame)
      {
        assert j > 0 ==> q.items[j] == r.items[j - 1];
      }
    }
  }

  /** How many frames a push has to drop. */
  function MustDrop(q: Queue): nat {
    if Full(q) then 1 else 0
  }

  lemma DropsUpTo(q: Queue) returns (n: nat)
    requires LosesVideo(q) && |q.items| <= MAX_ITEMS
    ensures GoesOnAt(q, MustDrop(q), n)
  {
    if Full(q) {
      var r := CanDrop(q, true, q.items[0].frame).0.(items := q.items[1..]);
      var m := DropsDependent(r);
      n := m + 1;
      assert q.items[n..] == r.items[m..];
      forall j | 1 <= j < n
        ensures Dependent(q.items[j].frame)
      {
        assert q.items[j] == r.items[j - 1];
      }
    } else {
      n := DropsDependent(q);
    }
  }

  /** With the new frame at the end, a dependent frame without a key frame ahead of it
      that is the new one or comes behind audio. Audio at the front ends the dropping. */
  predicate Strays(items: seq<Item>, from: nat, k: nat)
    requires k < |items|
  {
    Dependent(items[k].frame) && !KeyBetween(items, from, k) && (k == |items| - 1 || AudioBetween(items, from, k))
  }

  lemma StraysIff(items: seq<Item>, from: nat, n: nat)
    requires items != [] && from <= n < |items|
    requires forall j :: from <= j < n ==> Dependent(items[j].frame)
    requires n < |items| - 1 ==> Decodable(items[n].frame)
    ensures VideoBeginsWithKey(items[n..]) <==> forall k :: from <= k < |items| ==> !Strays(items, from, k)
  {
    var rest := items[n..];
    forall k | from <= k < |items| && Strays(items, from, k)
      ensures n <= k && !KeyBetween(rest, 0, k - n) && Dependent(rest[k - n].frame)
    {
      KeyInRest(items, from, n, k);
    }
    forall k | 0 <= k < |rest| && Dependent(rest[k].frame) && !KeyBetween(rest, 0, k)
      ensures Strays(items, from, n + k)
    {
      KeyInRest(items, from, n, n + k);
      assert k > 0 ==> !items[n].frame.video;
    }
  }

  lemma KeyInRest(items: seq<Item>, from: nat, n: nat, k: nat)
    requires from <= n <= |items| && from <= k <= |items|
    requires forall j :: from <= j < n ==> Dependent(items[j].frame)
    ensures n <= k ==> (KeyBetween(items, from, k) <==> KeyBetween(items[n..], 0, k - n))
    ensures k < n ==> !AudioBetween(items, from, k)
  {
    if n <= k && KeyBetween(items, from, k) {
      var j :| from <= j < k && Key(items[j].frame);
      assert Key(items[n..][j - n].frame);
    }
    if n <= k && KeyBetween(items[n..], 0, k - n) {
      var j :| 0 <= j < k - n && Key(items[n..][j].frame);
      assert Key(items[n + j].frame);
    }
  }

  /** After a push that loses video, the first video frame in the queue is a key frame
      exactly unless, behind the frame a full queue must drop, a dependent frame comes
      with no key frame ahead of it that is the new one or is hidden by audio. */
  lemma VideoAfterPushIff(q: Queue, f: Frame)
    requires LosesVideo(q) && !q.flushing && q.direction == DropFront && |q.items| <= MAX_ITEMS
    ensures var items := q.items + [Item(|q.pushed|, f)];
            VideoBeginsWithKey(Push(q, f).items) <==>
              forall k :: MustDrop(q) <= k < |items| ==> !Strays(items, MustDrop(q), k)
  {
    var n := DropsUpTo(q);
    var items := q.items + [Item(|q.pushed|, f)];
    assert DropOld(q).pushed == q.pushed by {
      DropOldPushed(q);
    }
    assert Push(q, f).items == items[n..];
    StraysIff(items, MustDrop(q), n);
  }

  lemma {:induction false} DropOldPushed(q: Queue)
    ensures DropOld(q).pushed == q.pushed
    decreases |q.items|
  {
    if q.items != [] {
      var r := CanDrop(q, Full(q), q.items[0].frame);
      if r.1 {
        DropOldPushed(r.0.(items := q.items[1..]));
      }
    }
  }

  const DELTA := Frame(true, false)
  const AUDIO := Frame(false, false)

  function Pushes(fs: seq<Frame>): seq<Event> {
    seq(|fs|, i requires 0 <= i < |fs| => Pushing(fs[i]))
  }

  /** A queue that has taken these frames. */
  function Filled(fs: seq<Frame>): Queue {
    Empty(true, DropFront).(items := seq(|fs|, i requires 0 <= i < |fs| => Item(i, fs[i])), pushed := fs)
  }

  lemma PushOnFilled(fs: seq<Frame>, f: Frame)
    requires |fs| < MAX_ITEMS
    ensures Push(Filled(fs), f) == Filled(fs + [f])
  {
    var q := Filled(fs);
    assert DropOld(q) == q;
    assert q.items + [Item(|fs|, f)] == Filled(fs + [f]).items;
  }

  lemma {:induction false} FillUp(fs: seq<Frame>, gs: seq<Frame>, es: seq<Event>)
    requires |fs| + |gs| <= MAX_ITEMS && Possible(Filled(fs + gs), es)
    ensures Possible(Filled(fs), Pushes(gs) + es)
    ensures Run(Filled(fs), Pushes(gs) + es) == Run(Filled(fs + gs), es)
    decreases |gs|
  {
    if gs == [] {
      assert fs + gs == fs && Pushes(gs) + es == es;
    } else {
      var all := Pushes(gs) + es;
      assert all[0] == Pushing(gs[0]) && all[1..] == Pushes(gs[1..]) + es;
      assert fs + [gs[0]] + gs[1..] == fs + gs;
      PushOnFilled(fs, gs[0]);
      FillUp(fs + [gs[0]], gs[1..], es);
    }
  }

  /** For instance: after ninety-one video frames without a key frame the only one left
      is one a decoder cannot begin with. */
  lemma UndecodableFront()
    ensures var q := Empty(true, DropFront); var es := Pushes(seq(90, i => DELTA)) + [Pushing(DELTA)];
            && Possible(q, es)
            && var r := Run(q, es); |r.items| == 1 && !Decodable(r.items[0].frame) && r.waitKey
  {
    var fs := seq(90, i => DELTA);
    assert Filled([]) == Empty(true, DropFront) && [] + fs == fs;
    OneEvent(Filled(fs), Pushing(DELTA));
    FillUp([], fs, [Pushing(DELTA)]);
    PushOnFull(Filled(fs));
  }

  lemma OneEvent(q: Queue, e: Event)
    requires Enabled(q, e)
    ensures Possible(q, [e]) && Run(q, [e]) == Apply(q, e)
  {
    assert [e][1..] == [];
    assert Run(Apply(q, e), []) == Apply(q, e);
  }

  /** And with one frame of audio behind the first: it ends the dropping, and once it is
      popped a dependent frame is at the front. */
  lemma AudioHidesDependent()
    ensures var q := Empty(true, DropFront);
            var es := Pushes([DELTA, AUDIO] + seq(88, i => DELTA)) + [Pushing(DELTA), Popping];
            && Possible(q, es)
            && var r := Run(q, es); |r.items| == 89 && Dependent(r.items[0].frame) && r.waitKey
  {
    var fs, es := [DELTA, AUDIO] + seq(88, i => DELTA), [Pushing(DELTA), Popping];
    var q := Filled(fs);
    var r := Push(q, DELTA);
    assert r.items == q.items[1..] + [Item(90, DELTA)] && r.waitKey by {
      DropsOneOnly(q);
    }
    assert es[1..] == [Popping];
    OneEvent(r, Popping);
    assert Possible(q, es) && Run(q, es) == Run(r, [Popping]) == Pop(r);
    assert Filled([]) == Empty(true, DropFront) && [] + fs == fs;
    FillUp([], fs, es);
  }

  lemma DropsOneOnly(q: Queue)
    requires q.drop && |q.items| == MAX_ITEMS && q.items[0].frame == DELTA && q.items[1].frame == AUDIO
    ensures DropOld(q).items == q.items[1..] && DropOld(q).waitKey && DropOld(q).pushed == q.pushed
  {
    var r := CanDrop(q, true, q.items[0].frame).0.(items := q.items[1..]);
    assert DropOld(r) == r;
  }

  /** A push on a full queue without any frame a decoder can begin with. */
  lemma PushOnFull(q: Queue)
    requires q.drop && !q.flushing && q.direction == DropFront && |q.items| == MAX_ITEMS
    requires forall i :: 0 <= i < |q.items| ==> q.items[i].frame == DELTA
    ensures var r := Push(q, DELTA); |r.items| == 1 && !Decodable(r.items[0].frame) && r.waitKey
  {
    assert !KeepsOne(q);
    DropKeepsOneIff(q);
    StaysWaiting(q);
  }

  /** A drop that leaves nothing leaves the queue waiting for a key frame. */
  lemma {:induction false} StaysWaiting(q: Queue)
    requires LosesVideo(q)
    ensures DropOld(q).items == [] ==> DropOld(q).waitKey
    decreases |q.items|
  {
    if q.items != [] {
      var r := CanDrop(q, Full(q), q.items[0].frame);
      if r.1 {
        StaysWaiting(r.0.(items := q.items[1..]));
      }
    }
  }

  lemma StoreKeeps(q: Queue, f: Frame)
    requires |q.items| < MAX_ITEMS && InOrder(q.popped + q.items, q.pushed) && Conserved(q)
    ensures Inv(Store(q, f))
  {
    InOrderWithNewest(q.popped + q.items, q.pushed, f);
    assert q.popped + (q.items + [Item(|q.pushed|, f)]) == q.popped + q.items + [Item(|q.pushed|, f)];
  }

  lemma PushKeeps(q: Queue, f: Frame)
    requires Inv(q) && (q.flushing || !Full(q) || q.drop)
    ensures Inv(Push(q, f))
  {
    InOrderWithNewest(q.popped + q.items, q.pushed, f);
    if !q.flushing {
      if q.direction == DropFront {
        DropOldKeeps(q);
        StoreKeeps(DropOld(q), f);
      } else {
        var r := CanDrop(q, Full(q), f);
        if !r.1 {
          StoreKeeps(r.0, f);
        }
      }
    }
  }

  lemma ApplyKeeps(q: Queue, e: Event)
    requires Inv(q) && Enabled(q, e)
    ensures Inv(Apply(q, e))
  {
    match e
    case Pushing(f) => PushKeeps(q, f);
    case Blocking(_) =>
    case Waking(f) => StoreKeeps(q.(blocked := q.blocked - multiset{f}), f);
    case Popping =>
      if q.items != [] {
        assert q.popped + [q.items[0]] + q.items[1..] == q.popped + q.items;
      }
    case Flushing =>
      assert q.popped + [] == (q.popped + q.items)[..|q.popped|];
    case FlushStop =>
  }

  // ------------------------------------------------------------- whole runs

  ghost predicate Possible(q: Queue, es: seq<Event>)
    decreases |es|
  {
    es == [] || (Enabled(q, es[0]) && Possible(Apply(q, es[0]), es[1..]))
  }

  function Run(q: Queue, es: seq<Event>): Queue
    decreases |es|
  {
    if es == [] then q else Run(Apply(q, es[0]), es[1..])
  }

  /** Over every run the queue holds at most ninety frames, the frames popped and
      then those still queued are pushed frames in the order they were pushed, and
      every pushed frame is popped, queued, counted as dropped, refused or flushed. */
  lemma {:induction false} QueueIsSound(q: Queue, es: seq<Event>)
    requires Inv(q) && Possible(q, es)
    ensures Inv(Run(q, es))
    decreases |es|
  {
    if es != [] {
      ApplyKeeps(q, es[0]);
      QueueIsSound(Apply(q, es[0]), es[1..]);
    }
  }

  // -------------------------------------------------------------- the queue

  class MediaFrameQueue {
    const drop: bool
    const direction: Direction
    var items: seq<Item>
    var waitKey: bool
    var flushing: bool
    var videoDropped: nat
    var audioDropped: nat
    ghost var pushed: seq<Frame>
    ghost var popped: seq<Item>
    ghost var refused: nat
    ghost var flushed: nat
    ghost var blocked: multiset<Frame>

    /** The place the next frame gets; only told apart for the proofs. */
    var next: nat

    ghost function View(): Queue
      reads this
    {
      Queue(drop, direction, items, waitKey, flushing, videoDropped, audioDropped, pushed, popped, refused, flushed,
            blocked)
    }

    ghost predicate Valid()
      reads this
    {
      next == |pushed|
    }

    constructor (drop: bool, direction: Direction)
      ensures Valid() && View() == Empty(drop, direction)
    {
      this.drop, this.direction := drop, direction;
      items, waitKey, flushing := [], false, false;
      videoDropped, audioDropped, next := 0, 0, 0;
      pushed, popped, refused, flushed, blocked := [], [], 0, 0, multiset{};
    }

    method MayDrop(full: bool, f: Frame) returns (can: bool)
      modifies this`waitKey, this`videoDropped, this`audioDropped
      ensures (View(), can) == CanDrop(old(View()), full, f)
    {
      can := false;
      if drop {
        if full || (f.video && waitKey) {
          if f.video {
            if !full {
              waitKey, can := !f.key, !f.key;
            } else {
              waitKey, can := true, true;
            }
            videoDropped := videoDropped + (if can then 1 else 0);
          } else if full {
            audioDropped := audioDropped + 1;
            can := true;
          }
        }
      }
    }

    method DropFromFront()
      modifies this`items, this`waitKey, this`videoDropped, this`audioDropped
      ensures View() == DropOld(old(View()))
    {
      var more := true;
      while |items| > 0 && more
        invariant DropOld(old(View())) == if more then DropOld(View()) else View()
        decreases |items|, more
      {
        more := MayDrop(|items| >= MAX_ITEMS, items[0].frame);
        if more {
          items := items[1..];
        }
      }
    }

    method StoreFrame(f: Frame)
      requires Valid()
      modifies this`items, this`pushed, this`next
      ensures Valid() && View() == Store(old(View()), f)
    {
      items := items + [Item(next, f)];
      pushed, next := pushed + [f], next + 1;
    }

    method PushFrame(f: Frame)
      requires Valid() && Enabled(View(), Pushing(f))
      modifies this
      ensures Valid() && View() == Push(old(View()), f)
    {
      if flushing {
        pushed, next, refused := pushed + [f], next + 1, refused + 1;
      } else if direction == DropFront {
        DropFromFront();
        StoreFrame(f);
      } else {
        var can := MayDrop(|items| >= MAX_ITEMS, f);
        if can {
          pushed, next := pushed + [f], next + 1;
        } else {
          StoreFrame(f);
        }
      }
    }

    /** A push that finds the queue full and may not drop begins to wait. */
    method BlockPush(ghost f: Frame)
      requires Valid() && Enabled(View(), Blocking(f))
      modifies this`blocked
      ensures Valid() && View() == Apply(old(View()), Blocking(f))
    {
      blocked := blocked + multiset{f};
    }

    /** The waiting push goes on behind its test for a flush. */
    method WakePush(f: Frame)
      requires Valid() && Enabled(View(), Waking(f))
      modifies this
      ensures Valid() && View() == Apply(old(View()), Waking(f))
    {
      blocked := blocked - multiset{f};
      StoreFrame(f);
    }

    method PopFrame() returns (item: seq<Item>)
      modifies this`items, this`popped
      ensures View() == Pop(old(View())) && item == old(items)[..if old(items) == [] then 0 else 1]
    {
      item := [];
      if |items| > 0 {
        item := [items[0]];
        popped := popped + [items[0]];
        items := items[1..];
      }
    }

    method FlushFrames()
      modifies this
      ensures View() == Flush(old(View())) && next == old(next)
    {
      flushing := true;
      flushed := flushed + |items|;
      while |items| > 0
        invariant View() == old(View()).(flushing := true, items := items, flushed := old(flushed) + |old(items)|)
        invariant next == old(next)
      {
        items := items[1..];
      }
    }
  }
}
