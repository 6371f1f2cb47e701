/** How many clips the manager holds and uploads at once. An exported clip waits in
    the records until the cloud names an upload address for it; then it is in
    flight until the response. Whether a request was canceled, and whether its
    export succeeds, are answers from outside. */
module UploadSlots {

  datatype Slots = Slots(max: nat, queue: seq<int>, records: set<int>, uploading: nat)

  /** Answers while a tick runs: which requests have become too late, which are
      canceled, which can be exported. */
  datatype Answers = Answers(late: int -> bool, canceled: int -> bool, exports: int -> bool)

  datatype Event =
    | Schedule(id: int)
    | Remove(which: int -> bool)
    | Tick(registered: bool, answers: Answers)
    | Reply(id: int, canceled: bool)
    | Timeout(id: int)
    | Response

  /** The queue without the requests to drop. */
  function Remaining(queue: seq<int>, drop: int -> bool): (rest: seq<int>)
    ensures |rest| <= |queue|
    ensures forall id :: id in rest <==> id in queue && !drop(id)
  {
    if queue == [] then []
    else (if drop(queue[0]) then [] else [queue[0]]) + Remaining(queue[1..], drop)
  }

  /** One request further, with those kept so far in front. */
  lemma RemainingNext(queue: seq<int>, drop: int -> bool, i: nat, kept: seq<int>)
    requires i < |queue|
    ensures kept + Remaining(queue[i..], drop)
            == kept + (if drop(queue[i]) then [] else [queue[i]]) + Remaining(queue[i + 1..], drop)
  {
    assert queue[i..][0] == queue[i] && queue[i..][1..] == queue[i + 1..];
  }

  predicate HasRoom(s: Slots) {
    s.uploading < s.max && s.queue != [] && |s.records| < s.max
  }

  /** Takes requests off the queue until one has been exported or no room is left. */
  function TickLoop(s: Slots, answers: Answers): Slots
    decreases |s.queue|
  {
    if !HasRoom(s) then s
    else
      var id, rest := s.queue[0], s.(queue := s.queue[1..]);
      if !answers.canceled(id) && answers.exports(id) then rest.(records := s.records + {id})
      else TickLoop(rest, answers)
  }

  /** The cloud names an address: the clip leaves the records, and is in flight
      unless it was canceled meanwhile. A late or repeated reply finds no clip. */
  function Replied(s: Slots, id: int, canceled: bool): Slots {
    if id in s.records
    then s.(records := s.records - {id}, uploading := if canceled then s.uploading else s.uploading + 1)
    else s
  }

  predicate Enabled(s: Slots, e: Event) {
    e.Response? ==> s.uploading > 0
  }

  function Apply(s: Slots, e: Event): Slots
    requires Enabled(s, e)
  {
    match e
    case Schedule(id) => s.(queue := s.queue + [id])
    case Remove(which) => s.(queue := Remaining(s.queue, which))
    case Tick(registered, answers) =>
      var t := s.(queue := Remaining(s.queue, answers.late));
      if registered then TickLoop(t, answers) else t
    case Reply(id, canceled) => Replied(s, id, canceled)
    case Timeout(id) => s.(records := s.records - {id})
    case Response => s.(uploading := s.uploading - 1)
  }

  ghost predicate Possible(s: Slots, es: seq<Event>)
    decreases |es|
  {
    es == [] || (Enabled(s, es[0]) && Possible(Apply(s, es[0]), es[1..]))
  }

  ghost function Run(s: Slots, es: seq<Event>): Slots
    requires Possible(s, es)
    decreases |es|
  {
    if es == [] then s else Run(Apply(s, es[0]), es[1..])
  }

  function Start(max: nat): Slots {
    Slots(max, [], {}, 0)
  }

  // ------------------------------------------------------------------ bound

  /** Clips held never exceed the limit; clips held and in flight together never
      reach twice the limit. */
  ghost predicate Bounded(s: Slots) {
    && |s.records| <= s.max
    && (|s.records| + s.uploading == 0 || |s.records| + s.uploading <= 2 * s.max - 1)
  }

  lemma {:induction false} TickKeepsBound(s: Slots, answers: Answers)
    requires Bounded(s)
    ensures Bounded(TickLoop(s, answers)) && TickLoop(s, answers).max == s.max
    decreases |s.queue|
  {
    if HasRoom(s) {
      var id, rest := s.queue[0], s.(queue := s.queue[1..]);
      if !answers.canceled(id) && answers.exports(id) {
        assert |s.records + {id}| <= |s.records| + 1 by {
          if id in s.records {
            assert s.records + {id} == s.records;
          }
        }
      } else {
        TickKeepsBound(rest, answers);
      }
    }
  }

  /** Dropping goes request by request, so the others keep their order. */
  lemma {:induction false} RemainingConcat(a: seq<int>, b: seq<int>, drop: int -> bool)
    ensures Remaining(a + b, drop) == Remaining(a, drop) + Remaining(b, drop)
    decreases |a|
  {
    if a == [] {
      assert a + b == b;
    } else {
      assert (a + b)[0] == a[0] && (a + b)[1..] == a[1..] + b;
      RemainingConcat(a[1..], b, drop);
    }
  }

  lemma RemainingOne(id: int, drop: int -> bool)
    ensures Remaining([id], drop) == if drop(id) then [] else [id]
  {
    assert [id][1..] == [];
  }

  predicate Exportable(id: int, answers: Answers) {
    !answers.canceled(id) && answers.exports(id)
  }

  /** One of the requests can be exported. */
  predicate SomeExportable(queue: seq<int>, answers: Answers) {
    exists i :: 0 <= i < |queue| && Exportable(queue[i], answers)
  }

  lemma SomeExportableNext(queue: seq<int>, answers: Answers)
    requires queue != []
    ensures SomeExportable(queue, answers) <==> Exportable(queue[0], answers) || SomeExportable(queue[1..], answers)
  {
    if SomeExportable(queue, answers) && !Exportable(queue[0], answers) {
      var i :| 0 <= i < |queue| && Exportable(queue[i], answers);
      assert Exportable(queue[1..][i - 1], answers);
    }
  }

  /** The first n requests are taken: if one of them all can be exported, up to the first
      such one, which is then held, and else all. */
  predicate TakenInOrder(s: Slots, t: Slots, answers: Answers, n: nat) {
    && n <= |s.queue| && t.queue == s.queue[n..]
    && if SomeExportable(s.queue, answers)
       then && n > 0 && Exportable(s.queue[n - 1], answers) && t.records == s.records + {s.queue[n - 1]}
            && forall i :: 0 <= i < n - 1 ==> !Exportable(s.queue[i], answers)
       else n == |s.queue| && t.records == s.records
  }

  lemma TakesOneMore(s: Slots, t: Slots, answers: Answers, m: nat)
    requires s.queue != [] && !Exportable(s.queue[0], answers)
    requires TakenInOrder(s.(queue := s.queue[1..]), t, answers, m)
    ensures TakenInOrder(s, t, answers, m + 1)
  {
    var rest := s.queue[1..];
    SomeExportableNext(s.queue, answers);
    assert rest[m..] == s.queue[m + 1..];
    forall i | 0 <= i < m && SomeExportable(rest, answers)
      ensures !Exportable(s.queue[i], answers)
    {
      assert i > 0 ==> s.queue[i] == rest[i - 1];
    }
  }

  /** A tick takes requests from the front of the queue, in order, if uploads in flight and
      clips held are both below the limit: it passes over those that are canceled or cannot
      be exported, and exports and holds the first other one. Without room it takes none. */
  lemma {:induction false} TickTakesInOrder(s: Slots, answers: Answers) returns (n: nat)
    ensures var t := TickLoop(s, answers);
            && n <= |s.queue| && t.queue == s.queue[n..] && t.uploading == s.uploading && t.max == s.max
            && if s.uploading < s.max && |s.records| < s.max then TakenInOrder(s, t, answers, n) else t == s
    decreases |s.queue|
  {
    n := 0;
    if HasRoom(s) {
      SomeExportableNext(s.queue, answers);
      if Exportable(s.queue[0], answers) {
        n := 1;
      } else {
        var rest := s.(queue := s.queue[1..]);
        var m := TickTakesInOrder(rest, answers);
        n := m + 1;
        TakesOneMore(s, TickLoop(rest, answers), answers, m);
      }
    }
  }

  /** A reply takes the clip off those held and puts it in flight exactly if it is held and
      not canceled meanwhile. */
  lemma ReplyIff(s: Slots, id: int, canceled: bool)
    ensures var t := Apply(s, Reply(id, canceled));
            && (t.uploading == s.uploading + 1 <==> id in s.records && !canceled)
            && (t.uploading == s.uploading <==> id !in s.records || canceled)
            && id !in t.records && (forall k :: k != id ==> (k in t.records <==> k in s.records))
            && t.queue == s.queue && t.max == s.max
  {
  }

  lemma RemovalShrinks(a: set<int>, id: int)
    ensures |a - {id}| == if id in a then |a| - 1 else |a|
  {
    if id !in a {
      assert a - {id} == a;
    }
  }

  lemma ApplyKeepsBound(s: Slots, e: Event)
    requires Bounded(s) && Enabled(s, e)
    ensures Bounded(Apply(s, e)) && Apply(s, e).max == s.max
  {
    match e
    case Tick(_, answers) => TickKeepsBound(s.(queue := Remaining(s.queue, answers.late)), answers);
    case Reply(id, _) => RemovalShrinks(s.records, id);
    case Timeout(id) => RemovalShrinks(s.records, id);
    case _ =>
  }

  /** In every run, whatever the order of ticks, replies, timeouts and responses,
      the clips held and in flight stay below twice the limit. */
  lemma {:induction false} SlotBound(s: Slots, es: seq<Event>)
    requires Bounded(s) && Possible(s, es)
    ensures Bounded(Run(s, es)) && Run(s, es).max == s.max
    decreases |es|
  {
    if es != [] {
      ApplyKeepsBound(s, es[0]);
      SlotBound(Apply(s, es[0]), es[1..]);
    }
  }

  // ------------------------------------------------- what each event changes

  /** In flight: one more by a reply for a clip that is held and not canceled, one less by
      a response. Held: no more by a reply or a timeout, anew by a tick only, and then a
      request of the queue that is neither late nor canceled and can be exported. */
  lemma SlotsAfter(s: Slots, e: Event)
    requires Enabled(s, e)
    ensures var t := Apply(s, e);
            && t.max == s.max
            && t.uploading - s.uploading
               == (if e.Reply? && e.id in s.records && !e.canceled then 1 else if e.Response? then -1 else 0)
            && (forall id :: id in s.records ==> (id !in t.records <==> (e.Reply? || e.Timeout?) && e.id == id))
            && (forall id :: id in t.records && id !in s.records ==>
                               && e.Tick? && e.registered && id in s.queue
                               && !e.answers.late(id) && Exportable(id, e.answers))
  {
    if e.Tick? && e.registered {
      var n := TickTakesInOrder(s.(queue := Remaining(s.queue, e.answers.late)), e.answers);
    }
  }

  /** Queued: a scheduled request joins at the end, those to be removed leave, and a tick
      takes away the late ones and, if the agent is registered, some from the front. */
  lemma QueueAfter(s: Slots, e: Event) returns (n: nat)
    requires Enabled(s, e)
    ensures match e
            case Schedule(id) => Apply(s, e).queue == s.queue + [id]
            case Remove(which) =>
              forall id :: id in Apply(s, e).queue <==> id in s.queue && !which(id)
            case Tick(registered, answers) =>
              && n <= |Remaining(s.queue, answers.late)| && (!registered ==> n == 0)
              && Apply(s, e).queue == Remaining(s.queue, answers.late)[n..]
              && (!registered ==> Apply(s, e).records == s.records)
            case _ => Apply(s, e).queue == s.queue
  {
    n := 0;
    if e.Tick? && e.registered {
      n := TickTakesInOrder(s.(queue := Remaining(s.queue, e.answers.late)), e.answers);
    }
  }

  // ------------------------------------------------------------ in order

  /** The first list is what is left of the second when some items are taken out. */
  predicate Sub(a: seq<int>, b: seq<int>)
    decreases |b|
  {
    a == [] || (b != [] && ((a[0] == b[0] && Sub(a[1..], b[1..])) || Sub(a, b[1..])))
  }

  lemma {:induction false} SubRefl(a: seq<int>)
    ensures Sub(a, a)
  {
    if a != [] {
      SubRefl(a[1..]);
    }
  }

  lemma {:induction false} SubTail(a: seq<int>, b: seq<int>)
    requires a != [] && Sub(a, b)
    ensures Sub(a[1..], b)
    decreases |b|
  {
    if a[0] == b[0] && Sub(a[1..], b[1..]) {
      SubSkip(a[1..], b);
    } else {
      SubTail(a, b[1..]);
      SubSkip(a[1..], b);
    }
  }

  lemma SubSkip(a: seq<int>, b: seq<int>)
    requires b != [] && Sub(a, b[1..])
    ensures Sub(a, b)
  {
  }

  lemma {:induction false} SubTrans(a: seq<int>, b: seq<int>, c: seq<int>)
    requires Sub(a, b) && Sub(b, c)
    ensures Sub(a, c)
    decreases |b| + |c|
  {
    if a != [] {
      if b[0] == c[0] && Sub(b[1..], c[1..]) {
        if a[0] == b[0] && Sub(a[1..], b[1..]) {
          SubTrans(a[1..], b[1..], c[1..]);
        } else {
          SubTrans(a, b[1..], c[1..]);
        }
      } else {
        SubTrans(a, b, c[1..]);
      }
    }
  }

  lemma {:induction false} SubConcat(a: seq<int>, b: seq<int>, c: seq<int>)
    requires Sub(a, b)
    ensures Sub(a + c, b + c)
    decreases |b|
  {
    if b == [] {
      assert a + c == c && b + c == c;
      SubRefl(c);
    } else {
      assert (b + c)[1..] == b[1..] + c;
      if a != [] && a[0] == b[0] && Sub(a[1..], b[1..]) {
        assert (a + c)[1..] == a[1..] + c;
        SubConcat(a[1..], b[1..], c);
      } else {
        SubConcat(a, b[1..], c);
        SubSkip(a + c, b + c);
      }
    }
  }

  lemma {:induction false} SubBehind(c: seq<int>, a: seq<int>, b: seq<int>)
    requires Sub(a, b)
    ensures Sub(c + a, c + b)
    decreases |c|
  {
    if c == [] {
      assert c + a == a && c + b == b;
    } else {
      assert (c + a)[1..] == c[1..] + a && (c + b)[1..] == c[1..] + b;
      SubBehind(c[1..], a, b);
    }
  }

  lemma {:induction false} SubSuffix(a: seq<int>, n: nat)
    requires n <= |a|
    ensures Sub(a[n..], a)
    decreases n
  {
    if n == 0 {
      assert a[0..] == a;
      SubRefl(a);
    } else {
      assert a[n..] == a[1..][n - 1..];
      SubSuffix(a[1..], n - 1);
      SubSkip(a[n..], a);
    }
  }

  lemma {:induction false} SubRemaining(queue: seq<int>, drop: int -> bool)
    ensures Sub(Remaining(queue, drop), queue)
    decreases |queue|
  {
    if queue != [] {
      SubRemaining(queue[1..], drop);
      if drop(queue[0]) {
        assert Remaining(queue, drop) == Remaining(queue[1..], drop);
      } else {
        assert Remaining(queue, drop)[1..] == Remaining(queue[1..], drop);
      }
    }
  }

  /** The request a tick exports, if any. */
  function Exported(s: Slots, e: Event): seq<int> {
    if e.Tick? && e.registered then FirstExported(s.(queue := Remaining(s.queue, e.answers.late)), e.answers) else []
  }

  function FirstExported(s: Slots, answers: Answers): seq<int>
    decreases |s.queue|
  {
    if !HasRoom(s) then []
    else if Exportable(s.queue[0], answers) then [s.queue[0]]
    else FirstExported(s.(queue := s.queue[1..]), answers)
  }

  lemma {:induction false} FirstExportedIsHeld(s: Slots, answers: Answers)
    ensures TickLoop(s, answers).records == s.records + (set id | id in FirstExported(s, answers))
    decreases |s.queue|
  {
    if HasRoom(s) && !Exportable(s.queue[0], answers) {
      FirstExportedIsHeld(s.(queue := s.queue[1..]), answers);
    }
  }

  lemma {:induction false} FirstExportedIsAhead(s: Slots, answers: Answers)
    ensures Sub(FirstExported(s, answers) + TickLoop(s, answers).queue, s.queue)
    decreases |s.queue|
  {
    if !HasRoom(s) {
      assert [] + s.queue == s.queue;
      SubRefl(s.queue);
    } else if Exportable(s.queue[0], answers) {
      assert [s.queue[0]] + s.queue[1..] == s.queue;
      SubRefl(s.queue);
    } else {
      var rest := s.(queue := s.queue[1..]);
      FirstExportedIsAhead(rest, answers);
      SubSkip(FirstExported(rest, answers) + TickLoop(rest, answers).queue, s.queue);
    }
  }

  function Scheduled(e: Event): seq<int> {
    if e.Schedule? then [e.id] else []
  }

  lemma OneInOrder(s: Slots, e: Event)
    requires Enabled(s, e)
    ensures Sub(Exported(s, e) + Apply(s, e).queue, s.queue + Scheduled(e))
    ensures e.Tick? ==> Apply(s, e).records == s.records + (set id | id in Exported(s, e))
  {
    assert s.queue + [] == s.queue;
    match e
    case Tick(registered, answers) =>
      var t := s.(queue := Remaining(s.queue, answers.late));
      SubRemaining(s.queue, answers.late);
      if registered {
        FirstExportedIsHeld(t, answers);
        FirstExportedIsAhead(t, answers);
        SubTrans(Exported(s, e) + Apply(s, e).queue, t.queue, s.queue);
      } else {
        assert [] + t.queue == t.queue;
      }
    case Remove(which) =>
      SubRemaining(s.queue, which);
      assert [] + Apply(s, e).queue == Apply(s, e).queue;
    case _ =>
      assert [] + Apply(s, e).queue == Apply(s, e).queue;
      SubRefl(Apply(s, e).queue);
  }

  function AllExported(s: Slots, es: seq<Event>): seq<int>
    requires Possible(s, es)
    decreases |es|
  {
    if es == [] then [] else Exported(s, es[0]) + AllExported(Apply(s, es[0]), es[1..])
  }

  function AllScheduled(es: seq<Event>): seq<int> {
    if es == [] then [] else Scheduled(es[0]) + AllScheduled(es[1..])
  }

  /** In every run requests are exported in the order they were scheduled, each at most as
      often as it was scheduled, and those still queued come behind them. */
  lemma {:induction false} ExportedInOrder(s: Slots, es: seq<Event>)
    requires Possible(s, es)
    ensures Sub(AllExported(s, es) + Run(s, es).queue, s.queue + AllScheduled(es))
    decreases |es|
  {
    if es == [] {
      assert [] + s.queue == s.queue && s.queue + [] == s.queue;
      SubRefl(s.queue);
    } else {
      var t, x, rest := Apply(s, es[0]), Exported(s, es[0]), AllScheduled(es[1..]);
      var y := AllExported(t, es[1..]) + Run(t, es[1..]).queue;
      OneInOrder(s, es[0]);
      ExportedInOrder(t, es[1..]);
      SubJoin(x, t.queue, y, s.queue + Scheduled(es[0]), rest);
      Associates(s.queue, Scheduled(es[0]), rest);
      Associates(x, AllExported(t, es[1..]), Run(t, es[1..]).queue);
    }
  }

  lemma Associates(a: seq<int>, b: seq<int>, c: seq<int>)
    ensures a + b + c == a + (b + c)
  {
  }

  lemma SubJoin(x: seq<int>, middle: seq<int>, y: seq<int>, before: seq<int>, rest: seq<int>)
    requires Sub(x + middle, before) && Sub(y, middle + rest)
    ensures Sub(x + y, before + rest)
  {
    SubBehind(x, y, middle + rest);
    SubConcat(x + middle, before, rest);
    Associates(x, middle, rest);
    SubTrans(x + y, x + (middle + rest), before + rest);
  }

  // -------------------------------------------------------- the bound is tight

  ghost predicate Reaches(s: Slots, t: Slots) {
    exists es :: Possible(s, es) && Run(s, es) == t
  }

  lemma ReachesRefl(s: Slots)
    ensures Reaches(s, s)
  {
    assert Possible(s, []) && Run(s, []) == s;
  }

  lemma ReachesStep(s: Slots, e: Event, t: Slots)
    requires Enabled(s, e) && Reaches(Apply(s, e), t)
    ensures Reaches(s, t)
  {
    var es :| Possible(Apply(s, e), es) && Run(Apply(s, e), es) == t;
    var fs := [e] + es;
    assert fs[0] == e && fs[1..] == es;
    assert Possible(s, fs) && Run(s, fs) == t;
  }

  function Willing(): Answers {
    Answers(_ => false, _ => false, _ => true)
  }

  /** One request is scheduled and exported. */
  lemma HoldOneMore(s: Slots, id: int, t: Slots)
    requires s.queue == [] && s.uploading < s.max && |s.records| < s.max
    requires Reaches(s.(records := s.records + {id}), t)
    ensures Reaches(s, t)
  {
    var a := s.(queue := [id]);
    assert [] + [id] == [id] && [id][1..] == [];
    assert Remaining([id], Willing().late) == [id];
    assert Apply(a, Tick(true, Willing())) == s.(records := s.records + {id});
    ReachesStep(a, Tick(true, Willing()), t);
    assert Apply(s, Schedule(id)) == a;
    ReachesStep(s, Schedule(id), t);
  }

  function Ids(n: nat): (s: set<int>)
    ensures forall i :: i in s <==> 0 <= i < n
  {
    if n == 0 then {} else Ids(n - 1) + {n - 1}
  }

  lemma {:induction false} IdsSize(n: nat)
    ensures |Ids(n)| == n
  {
    if n > 0 {
      IdsSize(n - 1);
    }
  }

  /** With less than the limit in flight, clips can be held up to the limit. */
  lemma {:induction false} FillRecords(max: nat, u: nat, n: nat)
    requires u < max && n <= max
    ensures Reaches(Slots(max, [], Ids(n), u), Slots(max, [], Ids(max), u))
    decreases max - n
  {
    if n == max {
      ReachesRefl(Slots(max, [], Ids(max), u));
    } else {
      FillRecords(max, u, n + 1);
      IdsSize(n);
      assert Ids(n) + {n} == Ids(n + 1);
      HoldOneMore(Slots(max, [], Ids(n), u), n, Slots(max, [], Ids(max), u));
    }
  }

  /** One by one, clips can be put in flight while none waits, up to the limit. */
  lemma {:induction false} FillFlight(max: nat, u: nat, t: Slots)
    requires u < max && Reaches(Slots(max, [], {}, max - 1), t)
    ensures Reaches(Slots(max, [], {}, u), t)
    decreases max - u
  {
    if u < max - 1 {
      FillFlight(max, u + 1, t);
      var held := Slots(max, [], {0}, u);
      assert {0} - {0} == {};
      assert Apply(held, Reply(0, false)) == Slots(max, [], {}, u + 1);
      ReachesStep(held, Reply(0, false), t);
      assert {} + {0} == {0};
      HoldOneMore(Slots(max, [], {}, u), 0, t);
    }
  }

  /** All clips held go in flight. */
  lemma {:induction false} ReleaseAll(max: nat, n: nat, u: nat)
    ensures Reaches(Slots(max, [], Ids(n), u), Slots(max, [], {}, u + n))
    decreases n
  {
    if n == 0 {
      assert Ids(0) == {};
      ReachesRefl(Slots(max, [], {}, u));
    } else {
      ReleaseAll(max, n - 1, u + 1);
      var s := Slots(max, [], Ids(n), u);
      assert Ids(n) - {n - 1} == Ids(n - 1);
      ReachesStep(s, Reply(n - 1, false), Slots(max, [], {}, u + n));
    }
  }

  lemma {:induction false} ReachesTrans(a: Slots, b: Slots, c: Slots)
    requires Reaches(a, b) && Reaches(b, c)
    ensures Reaches(a, c)
  {
    var es :| Possible(a, es) && Run(a, es) == b;
    Continue(a, es, c);
  }

  lemma {:induction false} Continue(a: Slots, es: seq<Event>, c: Slots)
    requires Possible(a, es) && Reaches(Run(a, es), c)
    ensures Reaches(a, c)
    decreases |es|
  {
    if es != [] {
      Continue(Apply(a, es[0]), es[1..], c);
      ReachesStep(a, es[0], c);
    }
  }

  /** The bound is reached for every limit: all slots held and one less in flight,
      and then all of them in flight at once. */
  lemma BoundIsTight(max: nat)
    requires max >= 1
    ensures Reaches(Start(max), Slots(max, [], Ids(max), max - 1)) && |Ids(max)| == max
    ensures Reaches(Start(max), Slots(max, [], {}, 2 * max - 1))
  {
    IdsSize(max);
    assert Ids(0) == {};
    FillRecords(max, max - 1, 0);
    FillFlight(max, 0, Slots(max, [], Ids(max), max - 1));
    ReleaseAll(max, max, max - 1);
    ReachesTrans(Start(max), Slots(max, [], Ids(max), max - 1), Slots(max, [], {}, 2 * max - 1));
  }

  /** The limit on concurrent uploads is kept in every run exactly when it is one:
      the slots are counted before the clips go in flight. */
  lemma ConcurrencyKeptIffOne(max: nat)
    requires max >= 1
    ensures (forall t :: Reaches(Start(max), t) ==> t.uploading <= max) <==> max == 1
  {
    forall t | Reaches(Start(max), t)
      ensures t.uploading <= 2 * max - 1
    {
      var es :| Possible(Start(max), es) && Run(Start(max), es) == t;
      SlotBound(Start(max), es);
    }
    if max > 1 {
      BoundIsTight(max);
      assert Slots(max, [], {}, 2 * max - 1).uploading > max;
    }
  }

  // ------------------------------------------------------------ the manager

  /** The part of the manager that keeps the slots. */
  class Manager {
    const max: nat
    var queue: seq<int>
    var records: set<int>
    var uploading: nat

    ghost function View(): Slots
      reads this
    {
      Slots(max, queue, records, uploading)
    }

    constructor (max: nat)
      ensures View() == Start(max)
    {
      this.max := max;
      queue, records, uploading := [], {}, 0;
    }

    method ScheduleDirectUpload(id: int)
      modifies this
      ensures View() == Apply(old(View()), Schedule(id))
    {
      queue := queue + [id];
    }

    method RequestDirectUpload(id: int, answers: Answers) returns (requested: bool)
      modifies this`records
      ensures requested == answers.exports(id)
      ensures records == if requested then old(records) + {id} else old(records)
    {
      requested := answers.exports(id);
      if requested {
        records := records + {id};
      }
    }

    /** Takes the requests to drop out of the queue. */
    method DropQueued(drop: int -> bool)
      modifies this`queue
      ensures queue == Remaining(old(queue), drop)
    {
      var kept, requests := [], queue;
      for i := 0 to |requests|
        invariant kept + Remaining(requests[i..], drop) == Remaining(requests, drop)
      {
        RemainingNext(requests, drop, i, kept);
        kept := kept + (if drop(requests[i]) then [] else [requests[i]]);
      }
      queue := kept;
    }

    method CancelDirectUploads(canceled: int -> bool)
      modifies this`queue
      ensures View() == Apply(old(View()), Remove(canceled))
    {
      DropQueued(canceled);
    }

    method DirectUploadSync(registered: bool, answers: Answers)
      modifies this
      ensures View() == Apply(old(View()), Tick(registered, answers))
    {
      DropQueued(answers.late);
      ghost var s := View();
      if registered {
        var requested := false;
        while uploading < max && |queue| > 0 && |records| < max && !requested
          invariant uploading == old(uploading)
          invariant TickLoop(s, answers) == if requested then View() else TickLoop(View(), answers)
          decreases |queue|
        {
          var id := queue[0];
          queue := queue[1..];
          if !answers.canceled(id) {
            requested := RequestDirectUpload(id, answers);
          }
        }
      }
    }

    method OnDirectUploadUrl(id: int, canceled: bool)
      modifies this
      ensures View() == Apply(old(View()), Reply(id, canceled))
    {
      if id in records {
        if !canceled {
          uploading := uploading + 1;
        }
        records := records - {id};
      }
    }

    method OnAckTimeout(id: int)
      modifies this
      ensures View() == Apply(old(View()), Timeout(id))
    {
      records := records - {id};
    }

    method OnUploadResponse()
      requires uploading > 0
      modifies this
      ensures View() == Apply(old(View()), Response)
    {
      uploading := uploading - 1;
    }
  }
}
