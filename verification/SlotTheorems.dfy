/** What holds in every reachable state of the loader, for every schedule. */
module SlotTheorems {
  import opened Text
  import opened Status
  import opened Sandbox
  import opened SlotProtocol

  // ---- Containers and slots

  function LiveIds(s: State): set<string> {
    set id | id in s.docker && !s.docker[id].phase.Announced?
  }

  function Holders(hs: seq<Handler>): set<nat> {
    set h: nat | h < |hs| && HoldsSlot(hs[h])
  }

  lemma HoldersAppend(front: seq<Handler>, x: Handler)
    ensures Holders(front + [x]) == Holders(front) + (if HoldsSlot(x) then {|front|} else {})
  {
    var all := front + [x];
    forall h: nat ensures h in Holders(all) <==> h in Holders(front) || (HoldsSlot(x) && h == |front|) {
      if h < |front| {
        assert all[h] == front[h];
      }
    }
  }

  lemma {:induction false} HoldersCounted(hs: seq<Handler>)
    ensures |Holders(hs)| == Count(hs, HoldsSlot)
  {
    if hs != [] {
      var front, x := hs[..|hs| - 1], hs[|hs| - 1];
      assert hs == front + [x];
      HoldersCounted(front);
      HoldersAppend(front, x);
      CountAppend(front, x, HoldsSlot);
    }
  }

  /** An injection into `b` bounds the size of `a`. */
  lemma {:induction false} InjectionBounds(a: set<string>, f: map<string, nat>, b: set<nat>)
    requires forall x :: x in a ==> x in f && f[x] in b
    requires forall x, y :: x in a && y in a && f[x] == f[y] ==> x == y
    ensures |a| <= |b|
  {
    if a != {} {
      var x :| x in a;
      InjectionBounds(a - {x}, f, b - {f[x]});
    }
  }

  /** A container Docker has not announced as destroyed still occupies its handler's slot. */
  lemma LiveOwnerHoldsSlot(s: State, id: string)
    requires Inv(s) && id in LiveIds(s)
    ensures s.docker[id].owner in Holders(s.handlers)
  {
    assert DestroyOnce(s, id);
    assert HandlerInv(s, s.docker[id].owner);
  }

  /** At no time do more containers exist than the limiter has capacity, counting those already
      gone whose destroy event has not been sent. */
  lemma LiveContainersBounded(capacity: nat, schedule: seq<Label>, s: State)
    requires Reaches(Init(capacity), schedule, s)
    ensures |LiveIds(s)| <= |s.limiter| <= capacity
  {
    ReachableInv(capacity, schedule, s);
    RunKeepsCapacity(Init(capacity), schedule, s);
    HoldersCounted(s.handlers);
    var owners := map id | id in s.docker :: s.docker[id].owner;
    forall id | id in LiveIds(s) ensures id in owners && owners[id] in Holders(s.handlers) {
      LiveOwnerHoldsSlot(s, id);
    }
    InjectionBounds(LiveIds(s), owners, Holders(s.handlers));
  }

  lemma {:induction false} RunKeepsCapacity(s: State, schedule: seq<Label>, t: State)
    requires Reaches(s, schedule, t)
    ensures t.capacity == s.capacity
    decreases |schedule|
  {
    if schedule != [] {
      RunKeepsCapacity(Step(s, schedule[0]), schedule[1..], t);
    }
  }

  predicate RunHasFailed(h: Handler) { h.pc.RunFailed? }

  predicate HasTimedOut(h: Handler) { h.pc.TimedOut? }

  lemma {:induction false} CountParts(hs: seq<Handler>)
    ensures Count(hs, HoldsSlot) == Count(hs, InFlight) + Count(hs, LostSlot)
    ensures Count(hs, LostSlot) == Count(hs, RunHasFailed) + Count(hs, HasTimedOut)
  {
    if hs != [] {
      CountParts(hs[1..]);
    }
  }

  /** Exact accounting: every token in the limiter belongs to a handler between its send and its
      receive, to a failed `Run` or to a timed-out handler. */
  lemma SlotConservation(capacity: nat, schedule: seq<Label>, s: State)
    requires Reaches(Init(capacity), schedule, s)
    ensures |s.limiter| ==
      Count(s.handlers, InFlight) + Count(s.handlers, RunHasFailed) + Count(s.handlers, HasTimedOut)
    ensures |s.limiter| <= capacity
  {
    ReachableInv(capacity, schedule, s);
    RunKeepsCapacity(Init(capacity), schedule, s);
    CountParts(s.handlers);
  }

  // ---- What a schedule brings in

  datatype Arrival = Arrival(request: string, test: Option<Test>)

  function ArrivalOf(l: Label): seq<Arrival> {
    if l.Arrive? then [Arrival(l.request, l.test)] else []
  }

  /** The requests of a schedule, in the order they arrive. */
  function Arrivals(schedule: seq<Label>): seq<Arrival> {
    if schedule == [] then [] else ArrivalOf(schedule[0]) + Arrivals(schedule[1..])
  }

  function RequestsOf(hs: seq<Handler>): seq<Arrival> {
    seq(|hs|, h requires 0 <= h < |hs| => Arrival(hs[h].request, hs[h].test))
  }

  predicate SameRequest(x: Handler, y: Handler) {
    y.request == x.request && y.test == x.test
  }

  predicate IsFailOrRead(l: Label) {
    l.PrepareFails? || l.StartFails? || l.ReadResponse?
  }

  lemma FailKeepsRequests(s: State, l: Label, h: nat)
    requires Enabled(s, l) && h < |s.handlers| && IsFailOrRead(l)
    ensures |Step(s, l).handlers| == |s.handlers| && SameRequest(s.handlers[h], Step(s, l).handlers[h])
  {
  }

  lemma LoopKeepsRequests(s: State, l: Label, h: nat)
    requires Enabled(s, l) && h < |s.handlers| && IsLoopAction(l)
    ensures |Step(s, l).handlers| == |s.handlers| && SameRequest(s.handlers[h], Step(s, l).handlers[h])
  {
  }

  lemma StepKeepsRequests(s: State, l: Label, h: nat)
    requires Enabled(s, l) && h < |s.handlers|
    ensures h < |Step(s, l).handlers| && SameRequest(s.handlers[h], Step(s, l).handlers[h])
  {
    if IsLoopAction(l) {
      LoopKeepsRequests(s, l, h);
    } else if IsFailOrRead(l) {
      FailKeepsRequests(s, l, h);
    }
  }

  lemma HandlersGrow(s: State, l: Label)
    requires Enabled(s, l)
    ensures |Step(s, l).handlers| == |s.handlers| + if l.Arrive? then 1 else 0
  {
  }

  lemma StepAddsArrival(s: State, l: Label)
    requires Enabled(s, l)
    ensures RequestsOf(Step(s, l).handlers) == RequestsOf(s.handlers) + ArrivalOf(l)
  {
    HandlersGrow(s, l);
    var hs, more := s.handlers, Step(s, l).handlers;
    forall h: nat | h < |hs| ensures RequestsOf(more)[h] == RequestsOf(hs)[h] {
      StepKeepsRequests(s, l, h);
    }
    assert l.Arrive? ==> RequestsOf(more)[|hs|] == Arrival(l.request, l.test);
  }

  lemma {:induction false} RunAddsArrivals(s: State, schedule: seq<Label>, t: State)
    requires Reaches(s, schedule, t)
    ensures RequestsOf(t.handlers) == RequestsOf(s.handlers) + Arrivals(schedule)
    decreases |schedule|
  {
    if schedule != [] {
      StepAddsArrival(s, schedule[0]);
      RunAddsArrivals(Step(s, schedule[0]), schedule[1..], t);
    }
  }

  /** On every schedule there is one handler per request that arrived, in order, and it keeps the
      request and the test it arrived with. */
  lemma HandlersAreArrivals(capacity: nat, schedule: seq<Label>, s: State)
    requires Reaches(Init(capacity), schedule, s)
    ensures |s.handlers| == |Arrivals(schedule)|
    ensures forall h :: 0 <= h < |s.handlers| ==>
      s.handlers[h].request == Arrivals(schedule)[h].request && s.handlers[h].test == Arrivals(schedule)[h].test
  {
    RunAddsArrivals(Init(capacity), schedule, s);
    assert RequestsOf(s.handlers) == Arrivals(schedule);
    forall h | 0 <= h < |s.handlers|
      ensures s.handlers[h].request == Arrivals(schedule)[h].request && s.handlers[h].test == Arrivals(schedule)[h].test
    {
      assert RequestsOf(s.handlers)[h] == Arrivals(schedule)[h];
    }
  }

  function MessageOf(l: Label): seq<Message> {
    match l
    case Announce(id) => [Message(id, "destroy")]
    case Emit(id, action) => [Message(id, action)]
    case _ => []
  }

  /** The events Docker sends in a schedule, and how many of them the event loop looks at. */
  function Sent(schedule: seq<Label>): seq<Message> {
    if schedule == [] then [] else MessageOf(schedule[0]) + Sent(schedule[1..])
  }

  function LookedAt(schedule: seq<Label>): nat {
    if schedule == [] then 0 else (if schedule[0].Lookup? then 1 else 0) + LookedAt(schedule[1..])
  }

  lemma StepMovesEvents(s: State, l: Label)
    requires Enabled(s, l)
    ensures l.Lookup? ==> s.events != [] && Step(s, l).events == s.events[1..] && MessageOf(l) == []
    ensures !l.Lookup? ==> Step(s, l).events == s.events + MessageOf(l)
  {
  }

  lemma DropOneMore(events: seq<Message>, sent: seq<Message>, n: nat)
    requires events != [] && n <= |events[1..] + sent|
    ensures n + 1 <= |events + sent| && (events + sent)[n + 1..] == (events[1..] + sent)[n..]
  {
    assert events + sent == [events[0]] + (events[1..] + sent);
  }

  lemma SentLater(events: seq<Message>, message: seq<Message>, sent: seq<Message>)
    ensures events + (message + sent) == (events + message) + sent
  {
  }

  lemma {:induction false} RunMovesEvents(s: State, schedule: seq<Label>, t: State)
    requires Reaches(s, schedule, t)
    ensures LookedAt(schedule) <= |s.events + Sent(schedule)|
    ensures t.events == (s.events + Sent(schedule))[LookedAt(schedule)..]
    decreases |schedule|
  {
    if schedule != [] {
      var l, rest := schedule[0], schedule[1..];
      StepMovesEvents(s, l);
      RunMovesEvents(Step(s, l), rest, t);
      SentLater(s.events, MessageOf(l), Sent(rest));
      if l.Lookup? {
        DropOneMore(s.events, Sent(rest), LookedAt(rest));
        assert Sent(schedule) == Sent(rest);
      }
    }
  }

  /** The event loop looks at Docker's events in the order sent, each once, none left out. */
  lemma EventsInOrder(capacity: nat, schedule: seq<Label>, s: State)
    requires Reaches(Init(capacity), schedule, s)
    ensures LookedAt(schedule) <= |Sent(schedule)| && s.events == Sent(schedule)[LookedAt(schedule)..]
  {
    RunMovesEvents(Init(capacity), schedule, s);
    assert [] + Sent(schedule) == Sent(schedule);
  }

  // ---- A woken handler

  /** A handler woken by `complete` finds its own container in the map and reads a response; the
      test it arrived with passed exactly when the container finished and its output is the expected
      one, and none was made exactly when there is no test or the container did not finish; and the
      receive from the limiter afterwards never blocks. */
  lemma WokenHandlerProceeds(capacity: nat, schedule: seq<Label>, s: State, h: nat)
    requires Reaches(Init(capacity), schedule, s) && h < |s.handlers|
    ensures h < |Arrivals(schedule)|
    ensures s.handlers[h].pc.Woken? ==>
      var c, test := s.handlers[h].container, Arrivals(schedule)[h].test;
      var y := Step(s, ReadResponse(h)).handlers[h];
      && s.handlers[h].id in s.containers && s.containers[s.handlers[h].id] == h
      && c.complete.Closed?
      && y.pc.Releasing?
      && y.pc.response.result == (if c.response.Some? then c.response.value else ZERO_RESPONSE)
      && (y.pc.response.testStatus == TestPassed <==>
            c.status == FINISHED && test.Some? && c.response.Some? && c.response.value.output == test.value.expected)
      && (y.pc.response.testStatus == NoTest <==> c.status != FINISHED || test.None?)
      && y.pc.response.testStatus != TestNotRan
    ensures s.handlers[h].pc.Releasing? ==> Enabled(s, ReleaseSlot(h))
  {
    ReachableInv(capacity, schedule, s);
    HandlersAreArrivals(capacity, schedule, s);
    Localise(s, h);
    if s.handlers[h].pc.Woken? {
      NoPanic(s, ReadResponse(h));
      WokenReads(s, h);
    }
  }

  lemma WokenReads(s: State, h: nat)
    requires At(s, h, Woken) && s.handlers[h].id in s.containers && s.containers[s.handlers[h].id] == h
    requires GetResponse(s.handlers[h].container, s.handlers[h].test).Ok?
    ensures At(Step(s, ReadResponse(h)), h, Releasing(GetResponse(s.handlers[h].container, s.handlers[h].test).value))
  {
  }

  /** The panics written into the model are in no reachable state: no nil response, no second
      close, no id too short to slice. */
  lemma NothingCrashes(capacity: nat, schedule: seq<Label>, s: State)
    requires Reaches(Init(capacity), schedule, s)
    ensures !s.loop.LoopCrashed?
    ensures forall h :: 0 <= h < |s.handlers| ==> !s.handlers[h].pc.Crashed?
  {
    ReachableInv(capacity, schedule, s);
    forall h | 0 <= h < |s.handlers| ensures !s.handlers[h].pc.Crashed? {
      assert HandlerInv(s, h);
    }
  }

  // ---- Blocking and lost slots

  /** While contenders and lost slots together fit the capacity, taking a slot never blocks. */
  lemma SendNeverBlocks(capacity: nat, schedule: seq<Label>, s: State, h: nat)
    requires Reaches(Init(capacity), schedule, s)
    requires Count(s.handlers, Contends) + Count(s.handlers, LostSlot) <= capacity
    requires At(s, h, AwaitSlot)
    ensures Enabled(s, TakeSlot(h))
  {
    ReachableInv(capacity, schedule, s);
    RunKeepsCapacity(Init(capacity), schedule, s);
    CountParts(s.handlers);
    WaiterContends(s.handlers, h);
  }

  lemma {:induction false} FlightContends(hs: seq<Handler>)
    ensures Count(hs, InFlight) <= Count(hs, Contends)
  {
    if hs != [] {
      FlightContends(hs[1..]);
    }
  }

  lemma {:induction false} WaiterContends(hs: seq<Handler>, h: nat)
    requires h < |hs| && hs[h].pc.AwaitSlot?
    ensures Count(hs, InFlight) < Count(hs, Contends)
  {
    if h == 0 {
      FlightContends(hs[1..]);
    } else {
      WaiterContends(hs[1..], h - 1);
    }
  }

  // ---- How one handler may change

  /** What no action undoes: a lost slot stays lost, a closed channel stays closed with its
      response, except that reading a missing response makes it the zero response. */
  predicate Evolves(x: Handler, y: Handler) {
    && (LostSlot(x) ==> LostSlot(y))
    && (x.container.complete.Closed? ==>
          && y.container.complete.Closed?
          && (y.container.response == x.container.response ||
              (x.container.response.None? && y.container.response == Some(ZERO_RESPONSE))))
  }

  predicate IsLoopAction(l: Label) {
    l.Lookup? || l.Dispatch? || l.RecordOutput? || l.CloseComplete? || l.Stop?
  }

  lemma RecordEvolves(s: State, h: nat)
    requires Enabled(s, RecordOutput) && h < |s.handlers| && s.handlers[s.loop.h].container.complete.Open?
    ensures h < |Step(s, RecordOutput).handlers| && Evolves(s.handlers[h], Step(s, RecordOutput).handlers[h])
  {
  }

  lemma CloseEvolves(s: State, h: nat)
    requires Enabled(s, CloseComplete) && h < |s.handlers|
    ensures h < |Step(s, CloseComplete).handlers| && Evolves(s.handlers[h], Step(s, CloseComplete).handlers[h])
  {
  }

  lemma DispatchEvolves(s: State, file: Option<ExecutionResponse>, h: nat)
    requires Enabled(s, Dispatch(file)) && h < |s.handlers|
    ensures h < |Step(s, Dispatch(file)).handlers| && Evolves(s.handlers[h], Step(s, Dispatch(file)).handlers[h])
  {
  }

  lemma LoopStepEvolves(s: State, l: Label, h: nat)
    requires Enabled(s, l) && h < |s.handlers| && IsLoopAction(l)
    requires l.RecordOutput? ==> s.handlers[s.loop.h].container.complete.Open?
    ensures h < |Step(s, l).handlers| && Evolves(s.handlers[h], Step(s, l).handlers[h])
  {
    match l {
      case Dispatch(file) => DispatchEvolves(s, file, h);
      case RecordOutput => RecordEvolves(s, h);
      case CloseComplete => CloseEvolves(s, h);
      case _ =>
    }
  }

  lemma OtherStepEvolves(s: State, l: Label, h: nat)
    requires Enabled(s, l) && h < |s.handlers| && !IsLoopAction(l)
    requires !l.PrepareFails? && !l.StartFails? && !l.ReadResponse?
    ensures h < |Step(s, l).handlers| && Evolves(s.handlers[h], Step(s, l).handlers[h])
  {
  }

  lemma FailStepEvolves(s: State, l: Label, h: nat)
    requires Enabled(s, l) && h < |s.handlers| && (l.PrepareFails? || l.StartFails? || l.ReadResponse?)
    ensures h < |Step(s, l).handlers| && Evolves(s.handlers[h], Step(s, l).handlers[h])
  {
  }

  lemma StepEvolves(s: State, l: Label, h: nat)
    requires Inv(s) && Enabled(s, l) && h < |s.handlers|
    ensures h < |Step(s, l).handlers| && Evolves(s.handlers[h], Step(s, l).handlers[h])
  {
    if IsLoopAction(l) {
      if l.RecordOutput? { RecordsIntoOpen(s); }
      LoopStepEvolves(s, l, h);
    } else if l.PrepareFails? || l.StartFails? || l.ReadResponse? {
      FailStepEvolves(s, l, h);
    } else {
      OtherStepEvolves(s, l, h);
    }
  }

  /** The event loop records only into an open container. */
  lemma RecordsIntoOpen(s: State)
    requires Inv(s) && Enabled(s, RecordOutput)
    ensures s.handlers[s.loop.h].container.complete.Open?
  {
    assert HandlerInv(s, s.loop.h);
    assert DestroyOnce(s, s.handlers[s.loop.h].id);
  }

  lemma {:induction false} RunEvolves(s: State, schedule: seq<Label>, t: State, h: nat)
    requires Inv(s) && Reaches(s, schedule, t) && h < |s.handlers|
    ensures h < |t.handlers| && Evolves(s.handlers[h], t.handlers[h])
    decreases |schedule|
  {
    if schedule != [] {
      var l := schedule[0];
      StepEvolves(s, l, h);
      StepKeepsInv(s, l);
      RunEvolves(Step(s, l), schedule[1..], t, h);
    }
  }

  /** Once `complete` is closed, the response is final in every continuation: it is never
      replaced, and a missing one can only turn into the zero response. */
  lemma ClosedResponseIsFinal(
      capacity: nat, schedule: seq<Label>, s: State, continuation: seq<Label>, t: State, h: nat)
    requires Reaches(Init(capacity), schedule, s) && Reaches(s, continuation, t)
    requires h < |s.handlers| && s.handlers[h].container.complete.Closed?
    ensures h < |t.handlers| && t.handlers[h].container.complete.Closed?
    ensures t.handlers[h].container.response == s.handlers[h].container.response
      || (s.handlers[h].container.response.None? && t.handlers[h].container.response == Some(ZERO_RESPONSE))
  {
    ReachableInv(capacity, schedule, s);
    RunEvolves(s, continuation, t, h);
  }

  // ---- How often `complete` is closed

  /** The closes of handler `h`'s channel in a schedule: by a failing `Run` or by the event loop. */
  function CloseOps(s: State, schedule: seq<Label>, h: nat): nat
    decreases |schedule|
  {
    if schedule == [] || !Enabled(s, schedule[0]) then 0 else
      (if Closes(s, schedule[0], h) then 1 else 0) + CloseOps(Step(s, schedule[0]), schedule[1..], h)
  }

  predicate Closes(s: State, l: Label, h: nat) {
    l == PrepareFails(h) || l == StartFails(h) || (l.CloseComplete? && s.loop.Closing? && s.loop.h == h)
  }

  function IsClosed(s: State, h: nat): nat {
    if h < |s.handlers| && s.handlers[h].container.complete.Closed? then 1 else 0
  }

  lemma LoopStepCloses(s: State, l: Label, h: nat)
    requires Enabled(s, l) && IsLoopAction(l)
    requires l.CloseComplete? ==> Cleanup(s.handlers[s.loop.h].container).Ok?
    ensures IsClosed(Step(s, l), h) == IsClosed(s, h) + if Closes(s, l, h) then 1 else 0
  {
  }

  lemma FailStepCloses(s: State, l: Label, h: nat)
    requires Enabled(s, l) && (l.PrepareFails? || l.StartFails? || l.ReadResponse?)
    requires l.PrepareFails? || l.StartFails? ==> Cleanup(s.handlers[l.h].container).Ok?
    ensures IsClosed(Step(s, l), h) == IsClosed(s, h) + if Closes(s, l, h) then 1 else 0
  {
  }

  lemma OtherStepCloses(s: State, l: Label, h: nat)
    requires Enabled(s, l) && !IsLoopAction(l) && !l.PrepareFails? && !l.StartFails? && !l.ReadResponse?
    ensures IsClosed(Step(s, l), h) == IsClosed(s, h)
  {
  }

  /** Each close finds an open channel, and nothing else changes whether it is closed. */
  lemma StepCloses(s: State, l: Label, h: nat)
    requires Inv(s) && Enabled(s, l)
    ensures IsClosed(Step(s, l), h) == IsClosed(s, h) + if Closes(s, l, h) then 1 else 0
  {
    NoPanic(s, l);
    if IsLoopAction(l) {
      LoopStepCloses(s, l, h);
    } else if l.PrepareFails? || l.StartFails? || l.ReadResponse? {
      FailStepCloses(s, l, h);
    } else {
      OtherStepCloses(s, l, h);
    }
  }

  lemma {:induction false} RunCloses(s: State, schedule: seq<Label>, t: State, h: nat)
    requires Inv(s) && Reaches(s, schedule, t)
    ensures IsClosed(t, h) == IsClosed(s, h) + CloseOps(s, schedule, h)
    decreases |schedule|
  {
    if schedule != [] {
      StepCloses(s, schedule[0], h);
      StepKeepsInv(s, schedule[0]);
      RunCloses(Step(s, schedule[0]), schedule[1..], t, h);
    }
  }

  /** On every run each `complete` is closed at most once, over both failure paths of `Run` and
      the event path, and it is closed exactly if one of them ran. */
  lemma CompleteClosedAtMostOnce(capacity: nat, schedule: seq<Label>, s: State, h: nat)
    requires Reaches(Init(capacity), schedule, s)
    ensures CloseOps(Init(capacity), schedule, h) == IsClosed(s, h) <= 1
  {
    RunCloses(Init(capacity), schedule, s, h);
  }
}
