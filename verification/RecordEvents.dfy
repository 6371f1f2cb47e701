/** Starting and stopping streams: the number of active sinks and the nesting of
    record events sent to the cloud. What the streams, the storage and the event
    states answer comes in as arguments. */
module RecordEvents {

  datatype Reason = Live | ServerByEvent | Record | RecordByEvent | RecordDirect | Invalid

  /** directRecord: a recording for direct upload goes on; directActive: so does the
      hidden event that stands for it. */
  datatype State = State(
    sinks: int, depth: int, streamByEvent: bool, recordByEvent: bool, recordStream: int,
    directRecord: bool, directActive: bool, events: seq<bool>)

  const NO_STREAM: int := -1

  /** What the outside answers during a start: does the source start, does the sink
      start, is there storage, are there event streams, is a source needed. */
  datatype StartAnswers = StartAnswers(source: bool, sink: bool, storage: bool, eventStreams: bool, needsSource: bool)

  function Initial(): State {
    State(0, 0, false, false, NO_STREAM, false, false, [])
  }

  // ------------------------------------------------------------ transitions

  /** Enters or leaves one level; only the outermost level is told to the cloud. */
  function Notify(s: State, on: bool): State {
    if !on && s.depth == 0 then s
    else
      var depth := s.depth + (if on then 1 else -1);
      if (on && depth == 1) || (!on && depth == 0)
      then s.(depth := depth, events := s.events + [on])
      else s.(depth := depth)
  }

  function SinkStarted(s: State, ok: bool): (State, bool) {
    if s.sinks == 0 then (s.(sinks := if ok then 1 else 0), ok) else (s, true)
  }

  function RecordStarted(s: State, stream: int, a: StartAnswers): (State, bool) {
    if !a.source then (s, false)
    else
      var t := if s.streamByEvent then Notify(s, true) else s;
      var r := SinkStarted(t, a.sink);
      if r.1 then (r.0.(recordStream := stream), true) else r
  }

  /** The state after a start, and whether it succeeded. */
  function StreamStart(s: State, stream: int, reason: Reason, a: StartAnswers): (State, bool) {
    match reason
    case Live => if !a.source then (s, false) else SinkStarted(s, a.sink)
    case ServerByEvent => if !a.eventStreams then (s, false) else RecordStarted(s, stream, a)
    case Record => RecordStarted(s, stream, a)
    case RecordByEvent =>
      if !a.eventStreams then (s, false)
      else if !a.storage then (s.(streamByEvent := true, recordStream := stream), true)
      else if a.needsSource && !a.source then (s, false)
      else (s.(recordByEvent := true, recordStream := stream), true)
    case RecordDirect =>
      if a.storage then (s.(directRecord := true, directActive := true, recordStream := stream), true)
      else RecordStarted(s, stream, a)
    case Invalid => (s, false)
  }

  function SinkStopped(s: State): State {
    if s.sinks == 0 then s else s.(sinks := s.sinks - 1)
  }

  function StopPlainRecord(s: State): State {
    SinkStopped(if s.streamByEvent then Notify(s, false) else s)
  }

  /** A record stop ends the direct recording, with its event, if there is one. */
  function StopRecord(s: State): State {
    if s.directRecord then s.(directRecord := false, directActive := false) else StopPlainRecord(s)
  }

  function StopTimes(s: State, n: nat): State
    decreases n
  {
    if n == 0 then s else StopTimes(StopRecord(s), n - 1)
  }

  /** How many other events with a clip to record are going on, ahead of the hidden
      event of the direct recording and behind it in the order of their names. */
  datatype Ongoing = Ongoing(before: nat, after: nat)

  /** One nested stop for every event going on, the hidden one included if it is
      still active when its turn comes. */
  function StopNested(s: State, o: Ongoing): State {
    var t := StopTimes(s, o.before);
    StopTimes(if t.directActive then StopRecord(t) else t, o.after)
  }

  function StopByEvent(s: State, stream: int, o: Ongoing): State {
    if (!s.recordByEvent && !s.streamByEvent) || s.recordStream != stream then s
    else
      var t := if s.streamByEvent then StopNested(s, o) else s;
      var u := if t.depth != 0 then StopRecord(t.(depth := 1)) else t;
      u.(recordByEvent := false, streamByEvent := false)
  }

  /** The state after a stop, and whether the reason is one that can be stopped. */
  function StreamStop(s: State, stream: int, reason: Reason, o: Ongoing): (State, bool) {
    match reason
    case Live => (SinkStopped(s), true)
    case Record => (StopRecord(s), true)
    case ServerByEvent => (StopPlainRecord(s), true)
    case RecordByEvent => (StopByEvent(s, stream, o), true)
    case RecordDirect => (s, false)
    case Invalid => (s, false)
  }

  /** A change of the events' configuration stops every event, the hidden one of a
      direct recording too, but not that recording. */
  function StopAllEvents(s: State): State {
    s.(directActive := false)
  }

  // -------------------------------------------------------------- invariant

  /** Record events strictly alternate, beginning with "on". */
  ghost predicate Alternates(events: seq<bool>) {
    (events != [] ==> events[0]) && forall i :: 0 <= i < |events| - 1 ==> events[i] != events[i + 1]
  }

  /** The depth is positive exactly while the last event sent was "on". */
  ghost predicate Matches(depth: int, events: seq<bool>) {
    0 <= depth && Alternates(events) && (depth > 0 <==> events != [] && events[|events| - 1])
  }

  ghost predicate Inv(s: State) {
    0 <= s.sinks <= 1 && Matches(s.depth, s.events) && (s.directActive ==> s.directRecord)
  }

  lemma NotifyKeeps(s: State, on: bool)
    requires Inv(s)
    ensures Inv(Notify(s, on))
  {
    var t := Notify(s, on);
    if t.events != s.events {
      assert s.events != [] ==> s.events[|s.events| - 1] != on;
      assert s.events == [] ==> on;
    }
  }

  /** An event is sent exactly when the outermost level is entered or left. */
  lemma NotifySendsIff(s: State, on: bool)
    requires Inv(s)
    ensures var t := Notify(s, on);
            && t.depth == (if on then s.depth + 1 else if s.depth == 0 then 0 else s.depth - 1)
            && t.events == (if (s.depth > 0) != (t.depth > 0) then s.events + [on] else s.events)
            && t == s.(depth := t.depth, events := t.events)
  {
  }

  lemma StopRecordKeeps(s: State)
    requires Inv(s)
    ensures Inv(StopRecord(s)) && Inv(StopPlainRecord(s))
  {
    NotifyKeeps(s, false);
  }

  lemma {:induction false} StopTimesKeeps(s: State, n: nat)
    requires Inv(s)
    ensures Inv(StopTimes(s, n))
    decreases n
  {
    if n > 0 {
      StopRecordKeeps(s);
      StopTimesKeeps(StopRecord(s), n - 1);
    }
  }

  lemma StopNestedKeeps(s: State, o: Ongoing)
    requires Inv(s)
    ensures Inv(StopNested(s, o))
  {
    StopTimesKeeps(s, o.before);
    var t := StopTimes(s, o.before);
    StopRecordKeeps(t);
    StopTimesKeeps(if t.directActive then StopRecord(t) else t, o.after);
  }

  lemma StopByEventKeeps(s: State, stream: int, o: Ongoing)
    requires Inv(s)
    ensures Inv(StopByEvent(s, stream, o))
  {
    StopNestedKeeps(s, o);
    var t := if s.streamByEvent then StopNested(s, o) else s;
    if t.depth != 0 {
      StopRecordKeeps(t.(depth := 1));
    }
  }

  lemma StartRecordKeeps(s: State, stream: int, a: StartAnswers)
    requires Inv(s)
    ensures Inv(RecordStarted(s, stream, a).0)
  {
    NotifyKeeps(s, true);
    assert Inv(if s.streamByEvent then Notify(s, true) else s);
  }

  // ------------------------------------------------------------- whole runs

  datatype Call =
    | Start(stream: int, reason: Reason, answers: StartAnswers)
    | Stop(stream: int, reason: Reason, ongoing: Ongoing)
    | Reconfigure

  function Apply(s: State, c: Call): State {
    match c
    case Start(stream, reason, answers) => StreamStart(s, stream, reason, answers).0
    case Stop(stream, reason, ongoing) => StreamStop(s, stream, reason, ongoing).0
    case Reconfigure => StopAllEvents(s)
  }

  function Run(s: State, calls: seq<Call>): State
    decreases |calls|
  {
    if calls == [] then s else Run(Apply(s, calls[0]), calls[1..])
  }

  lemma ApplyKeeps(s: State, c: Call)
    requires Inv(s)
    ensures Inv(Apply(s, c))
  {
    match c
    case Start(stream, reason, answers) => StreamStartKeeps(s, stream, reason, answers);
    case Stop(stream, reason, ongoing) => StreamStopKeeps(s, stream, reason, ongoing);
    case Reconfigure =>
  }

  lemma StreamStartKeeps(s: State, stream: int, reason: Reason, a: StartAnswers)
    requires Inv(s)
    ensures Inv(StreamStart(s, stream, reason, a).0)
  {
    StartRecordKeeps(s, stream, a);
  }

  lemma StreamStopKeeps(s: State, stream: int, reason: Reason, o: Ongoing)
    requires Inv(s)
    ensures Inv(StreamStop(s, stream, reason, o).0)
  {
    StopRecordKeeps(s);
    StopByEventKeeps(s, stream, o);
  }

  /** Over any sequence of starts, stops and changes of configuration, with the nested
      calls they make, the record events sent strictly alternate, the depth is
      positive exactly while the last of them was "on", and there is at most one
      active sink. */
  lemma {:induction false} EventsAlternate(s: State, calls: seq<Call>)
    requires Inv(s)
    ensures Inv(Run(s, calls))
    decreases |calls|
  {
    if calls != [] {
      ApplyKeeps(s, calls[0]);
      EventsAlternate(Apply(s, calls[0]), calls[1..]);
    }
  }

  // --------------------------------------------------------------- the sink

  /** What starts the sink: a start for which the source and the sink start, unless it only
      chooses the by-event mode or records directly into storage. */
  predicate TurnsOn(c: Call) {
    && c.Start? && c.answers.source && c.answers.sink
    && match c.reason
       case Live => true
       case Record => true
       case ServerByEvent => c.answers.eventStreams
       case RecordDirect => !c.answers.storage
       case RecordByEvent => false
       case Invalid => false
  }

  /** How many nested stops leaving the by-event mode makes. */
  function NestedStops(s: State, o: Ongoing): nat {
    if !s.streamByEvent then 0
    else o.before + o.after + (if s.directActive && o.before == 0 then 1 else 0)
  }

  /** What stops it: a stop of the stream, and a stop of a recording that no direct
      recording takes; leaving the by-event mode is as many of these as it nests, and one
      more if the cloud is still told to record after them. */
  predicate TurnsOff(s: State, c: Call) {
    c.Stop? &&
    match c.reason
    case Live => true
    case ServerByEvent => true
    case Record => !s.directRecord
    case RecordByEvent =>
      && (s.recordByEvent || s.streamByEvent) && s.recordStream == c.stream
      && NestedStops(s, c.ongoing) + (if s.depth > 0 then 1 else 0) > (if s.directRecord then 1 else 0)
    case RecordDirect => false
    case Invalid => false
  }

  /** n record stops: a direct recording takes the first, and each of the others stops the
      sink and leaves one level. */
  lemma {:induction false} StopTimesIs(s: State, n: nat)
    requires Inv(s)
    ensures var t := StopTimes(s, n);
            var plain := n - (if s.directRecord && n > 0 then 1 else 0);
            && Inv(t) && t.sinks == (if plain > 0 then 0 else s.sinks)
            && t.depth == (if !s.streamByEvent then s.depth else if s.depth > plain then s.depth - plain else 0)
            && t.directRecord == (s.directRecord && n == 0) && t.directActive == (s.directActive && n == 0)
            && t.streamByEvent == s.streamByEvent && t.recordByEvent == s.recordByEvent
            && t.recordStream == s.recordStream
    decreases n
  {
    if n > 0 {
      StopRecordKeeps(s);
      StopTimesIs(StopRecord(s), n - 1);
    }
  }

  lemma StopNestedIs(s: State, o: Ongoing)
    requires (s.directActive ==> s.directRecord) && s.streamByEvent
    ensures StopNested(s, o) == StopTimes(s, NestedStops(s, o))
  {
    if s.directActive && o.before == 0 {
      NestedWithHidden(s, o, NestedStops(s, o));
    } else {
      NestedWithoutHidden(s, o, NestedStops(s, o));
    }
  }

  lemma StopOnceMore(s: State, n: nat)
    ensures StopTimes(s, 0) == s && StopTimes(s, n + 1) == StopTimes(StopRecord(s), n)
  {
  }

  lemma NestedWithHidden(s: State, o: Ongoing, n: nat)
    requires s.directActive && o.before == 0 && n == o.after + 1
    ensures StopNested(s, o) == StopTimes(s, n)
  {
    StopOnceMore(s, o.after);
    HiddenIsFirst(s, o, StopRecord(s));
  }

  lemma HiddenIsFirst(s: State, o: Ongoing, t: State)
    requires s.directActive && o.before == 0 && t == StopRecord(s)
    ensures StopNested(s, o) == StopTimes(t, o.after)
  {
    StopOnceMore(s, 0);
  }

  /** The first of any stops has ended the hidden event too. */
  lemma NestedWithoutHidden(s: State, o: Ongoing, n: nat)
    requires (s.directActive ==> s.directRecord && o.before > 0) && n == o.before + o.after
    ensures StopNested(s, o) == StopTimes(s, n)
  {
    StopTimesFlags(s, o.before);
    StopTimesTwice(s, o.before, o.after);
  }

  lemma {:induction false} StopTimesTwice(s: State, n: nat, m: nat)
    ensures StopTimes(StopTimes(s, n), m) == StopTimes(s, n + m)
    decreases n
  {
    if n > 0 {
      StopTimesTwice(StopRecord(s), n - 1, m);
    }
  }

  lemma LeavingStopsSink(s: State, c: Call)
    requires Inv(s) && c.Stop? && c.reason == RecordByEvent
    ensures StopByEvent(s, c.stream, c.ongoing).sinks == if TurnsOff(s, c) then 0 else s.sinks
  {
    if s.streamByEvent {
      StopNestedIs(s, c.ongoing);
      StopTimesIs(s, NestedStops(s, c.ongoing));
    }
  }

  /** For every call: a sink is active afterwards exactly if the call starts it, or one was
      active and the call does not stop it. */
  lemma SinkIff(s: State, c: Call)
    requires Inv(s)
    ensures Apply(s, c).sinks == 1 <==> TurnsOn(c) || (s.sinks == 1 && !TurnsOff(s, c))
    ensures Apply(s, c).sinks == 0 || Apply(s, c).sinks == 1
  {
    if c.Start? {
      StartsSink(s, c);
    } else if c.Stop? && c.reason == RecordByEvent {
      LeavingStopsSink(s, c);
    }
  }

  lemma StartsSink(s: State, c: Call)
    requires Inv(s) && c.Start?
    ensures Apply(s, c).sinks == if TurnsOn(c) then 1 else s.sinks
  {
    if c.reason == Record || c.reason == ServerByEvent || c.reason == RecordDirect {
      RecordStartedIs(s, c.stream, c.answers);
    }
  }

  /** A record start succeeds if the source starts and a sink is or becomes active; it
      enters a level as soon as the source has started. */
  lemma RecordStartedIs(s: State, stream: int, a: StartAnswers)
    requires Inv(s)
    ensures var (t, ok) := RecordStarted(s, stream, a);
            && (ok <==> a.source && (a.sink || s.sinks == 1))
            && t.sinks == (if ok then 1 else s.sinks)
            && t.depth == s.depth + (if a.source && s.streamByEvent then 1 else 0)
            && t == s.(sinks := t.sinks, depth := t.depth, events := t.events,
                       recordStream := if ok then stream else s.recordStream)
  {
  }

  /** The sink is still on after these calls. */
  ghost predicate StaysOn(s: State, calls: seq<Call>)
    decreases |calls|
  {
    calls == [] || (!TurnsOff(s, calls[0]) && StaysOn(Apply(s, calls[0]), calls[1..]))
  }

  /** Some call starts the sink, and none of those behind it stops it. */
  ghost predicate OnSince(s: State, calls: seq<Call>)
    decreases |calls|
  {
    calls != [] &&
    ((TurnsOn(calls[0]) && StaysOn(Apply(s, calls[0]), calls[1..])) || OnSince(Apply(s, calls[0]), calls[1..]))
  }

  /** Over any sequence of calls, a sink is active exactly if some start that turned it on,
      or the beginning if it was active then, has had no stop since that turned it off,
      nested ones included. */
  lemma {:induction false} SinkOverRuns(s: State, calls: seq<Call>)
    requires Inv(s)
    ensures Run(s, calls).sinks == 1 <==> OnSince(s, calls) || (s.sinks == 1 && StaysOn(s, calls))
    decreases |calls|
  {
    if calls != [] {
      SinkIff(s, calls[0]);
      ApplyKeeps(s, calls[0]);
      SinkOverRuns(Apply(s, calls[0]), calls[1..]);
    }
  }

  // ------------------------------------------------------- modes and levels

  /** The stop ends a direct recording. */
  predicate EndsDirect(s: State, c: Call) {
    && c.Stop? && s.directRecord
    && match c.reason
       case Record => true
       case RecordByEvent =>
         && (s.recordByEvent || s.streamByEvent) && s.recordStream == c.stream
         && (NestedStops(s, c.ongoing) > 0 || s.depth > 0)
       case _ => false
  }

  /** For every call, when the by-event modes and the direct recording are on afterwards. */
  lemma ModesIff(s: State, c: Call)
    requires Inv(s)
    ensures var t, left := Apply(s, c), c.Stop? && c.reason == RecordByEvent && s.recordStream == c.stream;
            && (t.streamByEvent <==>
                  || (c.Start? && c.reason == RecordByEvent && c.answers.eventStreams && !c.answers.storage)
                  || (s.streamByEvent && !left))
            && (t.recordByEvent <==>
                  || (c.Start? && c.reason == RecordByEvent && c.answers.eventStreams && c.answers.storage
                      && (c.answers.needsSource ==> c.answers.source))
                  || (s.recordByEvent && !left))
            && (t.directRecord <==>
                  (c.Start? && c.reason == RecordDirect && c.answers.storage) || (s.directRecord && !EndsDirect(s, c)))
            && (t.directActive <==>
                  || (c.Start? && c.reason == RecordDirect && c.answers.storage)
                  || (s.directActive && !EndsDirect(s, c) && !c.Reconfigure?))
  {
    if c.Start? {
      StartModes(s, c);
    } else if c.Stop? && c.reason == RecordByEvent {
      LeavingIs(s, c.stream, c.ongoing);
    }
  }

  lemma StartModes(s: State, c: Call)
    requires Inv(s) && c.Start?
    ensures var t, a := Apply(s, c), c.answers;
            && t.streamByEvent == (s.streamByEvent || (c.reason == RecordByEvent && a.eventStreams && !a.storage))
            && t.recordByEvent == (s.recordByEvent
                                   || (c.reason == RecordByEvent && a.eventStreams && a.storage
                                       && (a.needsSource ==> a.source)))
            && t.directRecord == (s.directRecord || (c.reason == RecordDirect && a.storage))
            && t.directActive == (s.directActive || (c.reason == RecordDirect && a.storage))
  {
    if c.reason != RecordByEvent && !(c.reason == RecordDirect && c.answers.storage) {
      OtherStartsKeepModes(s, c);
    }
  }

  lemma OtherStartsKeepModes(s: State, c: Call)
    requires Inv(s) && c.Start? && c.reason != RecordByEvent && !(c.reason == RecordDirect && c.answers.storage)
    ensures SameModes(s, Apply(s, c))
  {
    StartKeepsModes(s, c.stream, c.answers);
  }

  lemma StartKeepsModes(s: State, stream: int, a: StartAnswers)
    requires Inv(s)
    ensures SameModes(s, RecordStarted(s, stream, a).0) && SameModes(s, SinkStarted(s, a.sink).0)
  {
    RecordStartedIs(s, stream, a);
  }

  predicate SameModes(s: State, t: State) {
    && t.streamByEvent == s.streamByEvent && t.recordByEvent == s.recordByEvent
    && t.directRecord == s.directRecord && t.directActive == s.directActive
  }

  /** What leaving the by-event mode leaves as it is, and what it ends. */
  lemma LeavingIs(s: State, stream: int, o: Ongoing)
    requires Inv(s)
    ensures var t := StopByEvent(s, stream, o);
            var left := (s.recordByEvent || s.streamByEvent) && s.recordStream == stream;
            && t.recordStream == s.recordStream
            && t.streamByEvent == (s.streamByEvent && !left) && t.recordByEvent == (s.recordByEvent && !left)
            && t.directRecord == (s.directRecord && !(left && (NestedStops(s, o) > 0 || s.depth > 0)))
            && t.directActive == (s.directActive && t.directRecord)
  {
    if s.streamByEvent {
      StopNestedIs(s, o);
      StopTimesIs(s, NestedStops(s, o));
    }
  }

  /** The start of a recording that the cloud is told of. */
  predicate Enters(s: State, c: Call) {
    && c.Start? && c.answers.source && s.streamByEvent
    && match c.reason
       case Record => true
       case ServerByEvent => c.answers.eventStreams
       case RecordDirect => !c.answers.storage
       case _ => false
  }

  /** The plain stop of one. */
  predicate Leaves(s: State, c: Call) {
    c.Stop? && s.streamByEvent && (c.reason == ServerByEvent || (c.reason == Record && !s.directRecord))
  }

  /** For every call but the leaving of the by-event mode, how the level changes. A start
      enters one even if its sink then fails. */
  lemma LevelAfter(s: State, c: Call)
    requires Inv(s) && !(c.Stop? && c.reason == RecordByEvent)
    ensures Apply(s, c).depth
            == if Enters(s, c) then s.depth + 1 else if Leaves(s, c) && s.depth > 0 then s.depth - 1 else s.depth
  {
    if c.Start? {
      RecordStartedIs(s, c.stream, c.answers);
    }
  }

  /** Which stream is being recorded, for every call. */
  lemma RecordStreamAfter(s: State, c: Call)
    requires Inv(s)
    ensures var started := c.Start? && Answer(s, c) && c.reason != Live;
            Apply(s, c).recordStream == if started then c.stream else s.recordStream
  {
    if c.Start? {
      StartStream(s, c);
    } else if c.Stop? && c.reason == RecordByEvent {
      LeavingIs(s, c.stream, c.ongoing);
    }
  }

  lemma StartStream(s: State, c: Call)
    requires Inv(s) && c.Start?
    ensures Apply(s, c).recordStream == if Answer(s, c) && c.reason != Live then c.stream else s.recordStream
  {
    RecordStartedIs(s, c.stream, c.answers);
    assert SinkStarted(s, c.answers.sink).0.recordStream == s.recordStream;
  }

  /** What the caller of a start is told. */
  function Answer(s: State, c: Call): bool {
    match c
    case Start(stream, reason, answers) => StreamStart(s, stream, reason, answers).1
    case Stop(stream, reason, ongoing) => StreamStop(s, stream, reason, ongoing).1
    case Reconfigure => true
  }

  /** A start is answered with success exactly if what it needs is there, and an active
      sink does for the sink; a stop exactly if its reason can be stopped. */
  lemma AnswerIff(s: State, c: Call)
    requires Inv(s) && !c.Reconfigure?
    ensures Answer(s, c) <==>
              match c.reason
              case Live => c.Start? ==> c.answers.source && (c.answers.sink || s.sinks == 1)
              case Record => c.Start? ==> c.answers.source && (c.answers.sink || s.sinks == 1)
              case ServerByEvent =>
                c.Start? ==> c.answers.eventStreams && c.answers.source && (c.answers.sink || s.sinks == 1)
              case RecordByEvent =>
                c.Start? ==>
                  c.answers.eventStreams && (c.answers.storage && c.answers.needsSource ==> c.answers.source)
              case RecordDirect =>
                c.Start? && (c.answers.storage || (c.answers.source && (c.answers.sink || s.sinks == 1)))
              case Invalid => false
  {
    if c.Start? {
      RecordStartedIs(s, c.stream, c.answers);
    }
  }

  // ------------------------------------------------ is the recording really ended

  /** Nested stops keep the mode; the first of them ends a direct recording. */
  lemma {:induction false} StopTimesFlags(s: State, n: nat)
    ensures var t := StopTimes(s, n);
            && t.streamByEvent == s.streamByEvent && t.recordStream == s.recordStream
            && (t.directRecord <==> s.directRecord && n == 0)
            && (t.directActive ==> s.directActive) && (n == 0 ==> t == s)
            && (s.directRecord && n > 0 ==> !t.directActive)
            && (s.depth == 0 ==> t.depth == 0)
    decreases n
  {
    if n > 0 {
      StopTimesFlags(StopRecord(s), n - 1);
    }
  }

  lemma StopNestedFlags(s: State, o: Ongoing)
    requires Inv(s)
    ensures var t := StopNested(s, o);
            && t.streamByEvent == s.streamByEvent && (s.depth == 0 ==> t.depth == 0)
            && (t.directRecord <==> s.directRecord && !s.directActive && o == Ongoing(0, 0))
  {
    StopTimesFlags(s, o.before);
    var t := StopTimes(s, o.before);
    StopTimesFlags(if t.directActive then StopRecord(t) else t, o.after);
  }

  /** Leaving the by-event mode is meant to tell the cloud to stop recording. It
      does, exactly unless the mode that sends the events was not on, or a direct
      recording that has outlived its event takes the only stop. */
  lemma LeavingEndsRecordingIff(s: State, stream: int, o: Ongoing)
    requires Inv(s) && s.recordStream == stream && (s.recordByEvent || s.streamByEvent)
    ensures StopByEvent(s, stream, o).depth == 0 <==>
              s.depth == 0 || (s.streamByEvent && (!s.directRecord || s.directActive || o != Ongoing(0, 0)))
    ensures StopByEvent(s, stream, o).depth <= 1
  {
    StopNestedFlags(s, o);
    StopNestedKeeps(s, o);
  }

  /** The cloud is told to record only while the mode that sends the events is on,
      and a direct recording goes on exactly as long as its event. */
  ghost predicate Faithful(s: State) {
    Inv(s) && (s.depth > 0 ==> s.streamByEvent) && s.directRecord == s.directActive
  }

  lemma {:induction false} StopTimesFaithful(s: State, n: nat)
    requires Faithful(s)
    ensures Faithful(StopTimes(s, n))
    decreases n
  {
    if n > 0 {
      StopRecordKeeps(s);
      StopTimesFaithful(StopRecord(s), n - 1);
    }
  }

  lemma StopNestedFaithful(s: State, o: Ongoing)
    requires Faithful(s)
    ensures Faithful(StopNested(s, o))
  {
    StopTimesFaithful(s, o.before);
    var t := StopTimes(s, o.before);
    StopRecordKeeps(t);
    StopTimesFaithful(if t.directActive then StopRecord(t) else t, o.after);
  }

  lemma StopByEventFaithful(s: State, stream: int, o: Ongoing)
    requires Faithful(s)
    ensures Faithful(StopByEvent(s, stream, o))
  {
    StopByEventKeeps(s, stream, o);
    StopNestedFaithful(s, o);
    if (s.recordByEvent || s.streamByEvent) && s.recordStream == stream {
      LeavingEndsRecordingIff(s, stream, o);
    }
  }

  lemma RecordStartedFaithful(s: State, stream: int, a: StartAnswers)
    requires Faithful(s)
    ensures Faithful(RecordStarted(s, stream, a).0)
  {
    StartRecordKeeps(s, stream, a);
  }

  lemma StreamStartFaithful(s: State, stream: int, reason: Reason, a: StartAnswers)
    requires Faithful(s)
    ensures Faithful(StreamStart(s, stream, reason, a).0)
  {
    RecordStartedFaithful(s, stream, a);
  }

  lemma StopRecordFaithful(s: State)
    requires Faithful(s)
    ensures Faithful(StopRecord(s)) && Faithful(StopPlainRecord(s))
  {
    StopRecordKeeps(s);
  }

  lemma StreamStopFaithful(s: State, stream: int, reason: Reason, o: Ongoing)
    requires Faithful(s)
    ensures Faithful(StreamStop(s, stream, reason, o).0)
  {
    match reason
    case Record => StopRecordFaithful(s);
    case ServerByEvent => StopRecordFaithful(s);
    case RecordByEvent => StopByEventFaithful(s, stream, o);
    case _ =>
  }

  lemma ApplyFaithful(s: State, c: Call)
    requires Faithful(s) && !c.Reconfigure?
    ensures Faithful(Apply(s, c))
  {
    match c
    case Start(stream, reason, answers) => StreamStartFaithful(s, stream, reason, answers);
    case Stop(stream, reason, ongoing) => StreamStopFaithful(s, stream, reason, ongoing);
  }

  /** Without a change of configuration in between, leaving the by-event mode always
      ends the recording: over any sequence of starts and stops the cloud is told to
      record only while that mode is on. */
  lemma {:induction false} RecordingEndsWithMode(s: State, calls: seq<Call>)
    requires Faithful(s) && forall c :: c in calls ==> !c.Reconfigure?
    ensures Faithful(Run(s, calls))
    decreases |calls|
  {
    if calls != [] {
      assert calls[0] in calls;
      ApplyFaithful(s, calls[0]);
      RecordingEndsWithMode(Apply(s, calls[0]), calls[1..]);
    }
  }

  lemma RunFive(s: State, c0: Call, c1: Call, c2: Call, c3: Call, c4: Call)
    ensures Run(s, [c0, c1, c2, c3, c4]) == Apply(Apply(Apply(Apply(Apply(s, c0), c1), c2), c3), c4)
  {
    assert [c0, c1, c2, c3, c4][1..] == [c1, c2, c3, c4] && [c1, c2, c3, c4][1..] == [c2, c3, c4];
    assert [c2, c3, c4][1..] == [c3, c4] && [c3, c4][1..] == [c4] && [c4][1..] == [];
    var s4 := Apply(Apply(Apply(Apply(s, c0), c1), c2), c3);
    assert Run(Apply(s4, c4), []) == Apply(s4, c4);
    assert Run(s4, [c4]) == Apply(s4, c4);
    assert Run(Apply(Apply(Apply(s, c0), c1), c2), [c3, c4]) == Apply(s4, c4);
    assert Run(Apply(Apply(s, c0), c1), [c2, c3, c4]) == Apply(s4, c4);
    assert Run(Apply(s, c0), [c1, c2, c3, c4]) == Apply(s4, c4);
  }

  /** With one it may not: a stream recorded by event without storage, a record start,
      a direct recording once storage is back, a change of configuration, and then the
      end of the by-event mode leave the cloud recording. */
  lemma RecordingLeftOn() returns (calls: seq<Call>)
    ensures |calls| == 5 && calls[3] == Reconfigure && calls[4] == Stop(1, RecordByEvent, Ongoing(0, 0))
    ensures var s := Run(Initial(), calls);
            s.depth == 1 && s.events == [true] && !s.streamByEvent && !s.recordByEvent
  {
    var yes, no := StartAnswers(true, true, true, true, false), StartAnswers(true, true, false, true, false);
    var c0, c1, c2 := Start(1, RecordByEvent, no), Start(1, Record, no), Start(1, RecordDirect, yes);
    var c4 := Stop(1, RecordByEvent, Ongoing(0, 0));
    calls := [c0, c1, c2, Reconfigure, c4];
    RunFive(Initial(), c0, c1, c2, Reconfigure, c4);
    var s1 := Apply(Apply(Initial(), c0), c1);
    assert s1 == State(1, 1, true, false, 1, false, false, [true]);
    var s3 := Apply(Apply(s1, c2), Reconfigure);
    assert s3 == State(1, 1, true, false, 1, true, false, [true]);
    assert StopNested(s3, Ongoing(0, 0)) == s3;
  }

  // ------------------------------------------------------------ the manager

  /** The part of the manager that starts and stops streams. */
  class Manager {
    var sinks: int
    var depth: int
    var streamByEvent: bool
    var recordByEvent: bool
    var recordStream: int
    var directRecord: bool
    var directActive: bool
    ghost var events: seq<bool>

    ghost function View(): State
      reads this
    {
      State(sinks, depth, streamByEvent, recordByEvent, recordStream, directRecord, directActive, events)
    }

    constructor ()
      ensures View() == Initial()
    {
      sinks, depth, streamByEvent, recordByEvent := 0, 0, false, false;
      recordStream, directRecord, directActive, events := NO_STREAM, false, false, [];
    }

    method NotifyRecordEvent(on: bool) returns (sent: bool)
      modifies this`depth, this`events
      ensures View() == Notify(old(View()), on)
      ensures sent == (events != old(events))
    {
      sent := false;
      if !on && depth == 0 {
        return;
      }
      depth := depth + (if on then 1 else -1);
      if (on && depth == 1) || (!on && depth == 0) {
        events := events + [on];
        sent := true;
      }
    }

    method OnStreamStart(stream: int, reason: Reason, a: StartAnswers) returns (ok: bool)
      modifies this
      ensures (View(), ok) == StreamStart(old(View()), stream, reason, a)
      decreases reason == RecordDirect
    {
      ok := false;
      match reason
      case Live =>
        if a.source {
          ok := StartSink(a.sink);
        }
      case ServerByEvent =>
        if a.eventStreams {
          ok := StartRecord(stream, a);
        }
      case Record => ok := StartRecord(stream, a);
      case RecordByEvent =>
        if a.eventStreams {
          if a.storage {
            if a.needsSource && !a.source {
              return false;
            }
            recordStream, recordByEvent := stream, true;
          } else {
            streamByEvent, recordStream := true, stream;
          }
          ok := true;
        }
      case RecordDirect =>
        if a.storage {
          directRecord, directActive, recordStream := true, true, stream;
          ok := true;
        } else {
          ok := OnStreamStart(stream, Record, a);
        }
      case Invalid =>
    }

    method StartSink(works: bool) returns (ok: bool)
      modifies this`sinks
      ensures (View(), ok) == SinkStarted(old(View()), works)
    {
      ok := true;
      if sinks == 0 {
        ok := works;
        sinks := sinks + (if ok then 1 else 0);
      }
    }

    method StartRecord(stream: int, a: StartAnswers) returns (ok: bool)
      modifies this
      ensures (View(), ok) == RecordStarted(old(View()), stream, a)
    {
      ok := false;
      if a.source {
        if streamByEvent {
          var sent := NotifyRecordEvent(true);
        }
        ok := StartSink(a.sink);
        if ok {
          recordStream := stream;
        }
      }
    }

    method StopSink()
      modifies this`sinks
      ensures View() == SinkStopped(old(View()))
    {
      if sinks != 0 {
        sinks := sinks - 1;
      }
    }

    method OnStreamStop(stream: int, reason: Reason, o: Ongoing) returns (ok: bool)
      modifies this
      ensures (View(), ok) == StreamStop(old(View()), stream, reason, o)
      decreases reason == RecordByEvent
    {
      ok := true;
      match reason
      case Live => StopSink();
      case Record =>
        if directRecord {
          directActive := false;
          directRecord := false;
        } else {
          StopPlain();
        }
      case ServerByEvent => StopPlain();
      case RecordByEvent =>
        if (recordByEvent || streamByEvent) && recordStream == stream {
          LeaveByEvent(stream, o);
        }
      case RecordDirect => ok := false;
      case Invalid => ok := false;
    }

    method StopPlain()
      modifies this
      ensures View() == StopPlainRecord(old(View()))
    {
      if streamByEvent {
        var sent := NotifyRecordEvent(false);
      }
      StopSink();
    }

    method LeaveByEvent(stream: int, o: Ongoing)
      requires (recordByEvent || streamByEvent) && recordStream == stream
      modifies this
      ensures View() == StopByEvent(old(View()), stream, o)
      decreases true, 0
    {
      if streamByEvent {
        StopOngoing(stream, o);
      }
      if depth != 0 {
        depth := 1;
        var ok := OnStreamStop(stream, Record, Ongoing(0, 0));
      }
      recordByEvent, streamByEvent := false, false;
    }

    /** The loop over the events in the order of their names. */
    method StopOngoing(stream: int, o: Ongoing)
      modifies this
      ensures View() == StopNested(old(View()), o)
      decreases true, 0, 1
    {
      StopRepeatedly(stream, o.before);
      if directActive {
        var ok := OnStreamStop(stream, Record, Ongoing(0, 0));
      }
      StopRepeatedly(stream, o.after);
    }

    method StopRepeatedly(stream: int, n: nat)
      modifies this
      ensures View() == StopTimes(old(View()), n)
      decreases true, 0, 0
    {
      for i := 0 to n
        invariant StopTimes(View(), n - i) == StopTimes(old(View()), n)
      {
        var ok := OnStreamStop(stream, Record, Ongoing(0, 0));
      }
    }

    method StopAllEventStreams()
      modifies this`directActive
      ensures View() == StopAllEvents(old(View()))
    {
      if directActive {
        directActive := false;
      }
    }
  }
}
