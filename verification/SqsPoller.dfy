/** The SQS poller: receive a batch, start a handler for every non-empty message, wait for all of
    them, start again. Messages are numbered over the whole run in the order received. */
module SqsPoller {
  import opened Text

  datatype Queue = Queue(stopFlag: bool)

  datatype WorkerPc = Unvisited | Skipped | Handling | Deleting | Finishing | Gone

  datatype Phase = Looping | Receiving | Visiting(next: nat) | Stopped

  datatype Entry = Handled(message: nat) | DeleteAttempted(message: nat)

  datatype State = State(
    maxInFlight: nat,
    queues: seq<Queue>,        // every copy of the queue value made so far
    phase: Phase,
    bodies: seq<string>,
    workers: seq<WorkerPc>,
    start: nat,                // first message of the current batch
    waitGroup: int,
    log: seq<Entry>)

  /** `SqsQueue` has value receivers, so every call works on a new copy: of the value Stop is
      called on (copy 0) and of the one the polling goroutine was started with (copy 1). */
  const OWNER := 0
  const POLLER := 1

  function Init(maxInFlight: nat): State {
    State(maxInFlight, [Queue(false), Queue(false)], Looping, [], [], 0, 0, [])
  }

  datatype Label =
    | CheckStop
    | Receive(batch: seq<string>)  // empty when the call fails
    | Visit
    | HandlerReturns(i: nat)
    | AttemptDelete(i: nat)        // deferred, whether or not it succeeds
    | Finish(i: nat)
    | WaitReturns
    | CallStop

  predicate WorkerAt(s: State, i: nat, pc: WorkerPc) {
    i < |s.workers| && s.workers[i] == pc
  }

  /** SQS returns at most the number of messages asked for. */
  predicate Enabled(s: State, l: Label) {
    match l
    case CheckStop => s.phase.Looping? && POLLER < |s.queues|
    case Receive(batch) => s.phase.Receiving? && |batch| <= s.maxInFlight
    case Visit => s.phase.Visiting? && s.phase.next < |s.bodies| == |s.workers|
    case HandlerReturns(i) => WorkerAt(s, i, Handling)
    case AttemptDelete(i) => WorkerAt(s, i, Deleting)
    case Finish(i) => WorkerAt(s, i, Finishing)
    case WaitReturns => s.phase.Visiting? && s.phase.next == |s.bodies| && s.waitGroup == 0
    case CallStop => OWNER < |s.queues|
  }

  function SetStopFlag(q: Queue): Queue {
    q.(stopFlag := true)
  }

  function Step(s: State, l: Label): State
    requires Enabled(s, l)
  {
    match l
    case CheckStop => s.(phase := if s.queues[POLLER].stopFlag then Stopped else Receiving)
    case Receive(batch) =>
      s.(phase := Visiting(|s.bodies|), start := |s.bodies|, bodies := s.bodies + batch,
         workers := s.workers + seq(|batch|, _ => Unvisited))
    case Visit =>
      var i := s.phase.next;
      if s.bodies[i] == "" then s.(phase := Visiting(i + 1), workers := s.workers[i := Skipped])
      else s.(phase := Visiting(i + 1), workers := s.workers[i := Handling], waitGroup := s.waitGroup + 1)
    case HandlerReturns(i) => s.(workers := s.workers[i := Deleting], log := s.log + [Handled(i)])
    case AttemptDelete(i) => s.(workers := s.workers[i := Finishing], log := s.log + [DeleteAttempted(i)])
    case Finish(i) => s.(workers := s.workers[i := Gone], waitGroup := s.waitGroup - 1)
    case WaitReturns => s.(phase := Looping)
    case CallStop => s.(queues := s.queues + [SetStopFlag(s.queues[OWNER])])
  }

  function Exec(s: State, schedule: seq<Label>): Option<State>
    decreases |schedule|
  {
    if schedule == [] then Some(s)
    else if Enabled(s, schedule[0]) then Exec(Step(s, schedule[0]), schedule[1..])
    else None
  }

  ghost predicate Reaches(s: State, schedule: seq<Label>, t: State) {
    Exec(s, schedule) == Some(t)
  }

  // ---- Counting

  predicate InFlight(w: WorkerPc) {
    w.Handling? || w.Deleting? || w.Finishing?
  }

  function CountInFlight(ws: seq<WorkerPc>): nat {
    if ws == [] then 0 else (if InFlight(ws[0]) then 1 else 0) + CountInFlight(ws[1..])
  }

  lemma {:induction false} CountUpdate(ws: seq<WorkerPc>, i: nat, w: WorkerPc)
    requires i < |ws|
    ensures CountInFlight(ws[i := w]) == CountInFlight(ws) - (if InFlight(ws[i]) then 1 else 0) + (if InFlight(w) then 1 else 0)
  {
    if i == 0 {
      assert ws[i := w][1..] == ws[1..];
    } else {
      CountUpdate(ws[1..], i - 1, w);
      assert ws[i := w][1..] == ws[1..][i - 1 := w];
    }
  }

  lemma {:induction false} CountConcat(a: seq<WorkerPc>, b: seq<WorkerPc>)
    ensures CountInFlight(a + b) == CountInFlight(a) + CountInFlight(b)
  {
    if a == [] {
      assert a + b == b;
    } else {
      assert (a + b)[1..] == a[1..] + b;
      CountConcat(a[1..], b);
    }
  }

  lemma {:induction false} NoneInFlight(ws: seq<WorkerPc>)
    ensures CountInFlight(ws) == 0 <==> forall i :: 0 <= i < |ws| ==> !InFlight(ws[i])
  {
    if ws != [] {
      NoneInFlight(ws[1..]);
      assert forall i :: 0 < i < |ws| ==> ws[i] == ws[1..][i - 1];
    }
  }

  lemma {:induction false} AtMostAll(ws: seq<WorkerPc>)
    ensures CountInFlight(ws) <= |ws|
  {
    if ws != [] {
      AtMostAll(ws[1..]);
    }
  }

  // ---- Invariant

  /** Where a message's worker may be: settled before the batch, unvisited from `next` on. */
  ghost predicate WorkerInv(s: State, i: nat)
    requires i < |s.bodies| == |s.workers|
  {
    var w := s.workers[i];
    && (w.Unvisited? <==> s.phase.Visiting? && s.phase.next <= i)
    && (!w.Unvisited? ==> (w.Skipped? <==> s.bodies[i] == ""))
    && (!s.phase.Visiting? || i < s.start ==> !InFlight(w))
  }

  ghost predicate BatchInv(s: State) {
    && |s.bodies| == |s.workers|
    && s.start <= |s.bodies| <= s.start + s.maxInFlight
    && (s.phase.Visiting? ==> s.start <= s.phase.next <= |s.bodies|)
    && s.waitGroup == CountInFlight(s.workers)
    && (forall i :: 0 <= i < |s.bodies| ==> WorkerInv(s, i))
  }

  function PcOf(ws: seq<WorkerPc>, i: nat): WorkerPc {
    if i < |ws| then ws[i] else Unvisited
  }

  /** A message appears in the log as often as its worker's place says. */
  ghost predicate LoggedAs(log: seq<Entry>, i: nat, w: WorkerPc) {
    && multiset(log)[Handled(i)] == (if w.Deleting? || w.Finishing? || w.Gone? then 1 else 0)
    && multiset(log)[DeleteAttempted(i)] == (if w.Finishing? || w.Gone? then 1 else 0)
  }

  ghost predicate Ordered(log: seq<Entry>) {
    forall k :: 0 <= k < |log| && log[k].DeleteAttempted? ==> Handled(log[k].message) in log[..k]
  }

  ghost predicate LogInv(s: State) {
    Ordered(s.log) && forall i: nat :: LoggedAs(s.log, i, PcOf(s.workers, i))
  }

  ghost predicate FlagInv(s: State) {
    POLLER < |s.queues| && !s.queues[OWNER].stopFlag && !s.queues[POLLER].stopFlag && !s.phase.Stopped?
  }

  ghost predicate Inv(s: State) {
    BatchInv(s) && LogInv(s) && FlagInv(s)
  }

  lemma ReceiveKeepsBatch(s: State, batch: seq<string>)
    requires BatchInv(s) && Enabled(s, Receive(batch))
    ensures BatchInv(Step(s, Receive(batch)))
  {
    var t, more := Step(s, Receive(batch)), seq(|batch|, _ => Unvisited);
    CountConcat(s.workers, more);
    NoneInFlight(more);
    forall i | 0 <= i < |t.bodies| ensures WorkerInv(t, i) {
      if i < |s.bodies| {
        assert WorkerInv(s, i);
      }
    }
  }

  lemma VisitKeepsBatch(s: State)
    requires BatchInv(s) && Enabled(s, Visit)
    ensures BatchInv(Step(s, Visit))
  {
    var t := Step(s, Visit);
    assert WorkerInv(s, s.phase.next);
    CountUpdate(s.workers, s.phase.next, t.workers[s.phase.next]);
    forall i | 0 <= i < |t.bodies| ensures WorkerInv(t, i) {
      assert WorkerInv(s, i);
    }
  }

  lemma WorkerStepKeepsBatch(s: State, l: Label)
    requires BatchInv(s) && Enabled(s, l) && (l.HandlerReturns? || l.AttemptDelete? || l.Finish?)
    ensures BatchInv(Step(s, l))
  {
    var t := Step(s, l);
    assert WorkerInv(s, l.i);
    CountUpdate(s.workers, l.i, t.workers[l.i]);
    forall i | 0 <= i < |t.bodies| ensures WorkerInv(t, i) {
      assert WorkerInv(s, i);
    }
  }

  lemma WaitKeepsBatch(s: State)
    requires BatchInv(s) && Enabled(s, WaitReturns)
    ensures BatchInv(Step(s, WaitReturns))
  {
    NoneInFlight(s.workers);
    var t := Step(s, WaitReturns);
    forall i | 0 <= i < |t.bodies| ensures WorkerInv(t, i) {
      assert WorkerInv(s, i);
    }
  }

  lemma CheckKeepsBatch(s: State)
    requires BatchInv(s) && Enabled(s, CheckStop)
    ensures BatchInv(Step(s, CheckStop))
  {
    var t := Step(s, CheckStop);
    forall i | 0 <= i < |t.bodies| ensures WorkerInv(t, i) {
      assert WorkerInv(s, i);
    }
  }

  lemma StopKeepsBatch(s: State)
    requires BatchInv(s) && Enabled(s, CallStop)
    ensures BatchInv(Step(s, CallStop))
  {
    forall i | 0 <= i < |s.bodies| ensures WorkerInv(Step(s, CallStop), i) {
      assert WorkerInv(s, i);
    }
  }

  lemma OrderedAppend(log: seq<Entry>, e: Entry)
    requires Ordered(log) && (e.DeleteAttempted? ==> Handled(e.message) in log)
    ensures Ordered(log + [e])
  {
    var more := log + [e];
    forall k | 0 <= k < |more| && more[k].DeleteAttempted? ensures Handled(more[k].message) in more[..k] {
      assert more[..k] == log[..k];
    }
    assert log[..|log|] == log;
  }

  lemma LogStep(s: State, t: State, i: nat, e: Entry)
    requires LogInv(s) && i < |s.workers| && t.workers == s.workers[i := PcOf(t.workers, i)] && t.log == s.log + [e]
    requires
      || (e == Handled(i) && s.workers[i].Handling? && PcOf(t.workers, i).Deleting?)
      || (e == DeleteAttempted(i) && s.workers[i].Deleting? && PcOf(t.workers, i).Finishing?)
    ensures LogInv(t)
  {
    assert LoggedAs(s.log, i, PcOf(s.workers, i));
    if e.DeleteAttempted? {
      assert Handled(i) in multiset(s.log);
    }
    OrderedAppend(s.log, e);
    forall k: nat ensures LoggedAs(t.log, k, PcOf(t.workers, k)) {
      assert LoggedAs(s.log, k, PcOf(s.workers, k));
      assert multiset(t.log) == multiset(s.log) + multiset{e};
    }
  }

  lemma QuietStepKeepsLog(s: State, l: Label)
    requires BatchInv(s) && LogInv(s) && Enabled(s, l) && !l.HandlerReturns? && !l.AttemptDelete?
    ensures LogInv(Step(s, l))
  {
    var t := Step(s, l);
    if l.Visit? {
      assert WorkerInv(s, s.phase.next);
    }
    forall k: nat ensures LoggedAs(t.log, k, PcOf(t.workers, k)) {
      assert LoggedAs(s.log, k, PcOf(s.workers, k));
    }
  }

  lemma StepKeepsInv(s: State, l: Label)
    requires Inv(s) && Enabled(s, l)
    ensures Inv(Step(s, l))
  {
    var t := Step(s, l);
    match l {
      case HandlerReturns(i) => WorkerStepKeepsBatch(s, l); LogStep(s, t, i, Handled(i));
      case AttemptDelete(i) => WorkerStepKeepsBatch(s, l); LogStep(s, t, i, DeleteAttempted(i));
      case Finish(i) => WorkerStepKeepsBatch(s, l); QuietStepKeepsLog(s, l);
      case Receive(batch) => ReceiveKeepsBatch(s, batch); QuietStepKeepsLog(s, l);
      case Visit => VisitKeepsBatch(s); QuietStepKeepsLog(s, l);
      case WaitReturns => WaitKeepsBatch(s); QuietStepKeepsLog(s, l);
      case CheckStop => CheckKeepsBatch(s); QuietStepKeepsLog(s, l);
      case CallStop => QuietStepKeepsLog(s, l); StopKeepsBatch(s);
    }
  }

  lemma {:induction false} RunKeepsInv(s: State, schedule: seq<Label>, t: State)
    requires Inv(s) && Reaches(s, schedule, t)
    ensures Inv(t) && t.maxInFlight == s.maxInFlight
    decreases |schedule|
  {
    if schedule != [] {
      StepKeepsInv(s, schedule[0]);
      RunKeepsInv(Step(s, schedule[0]), schedule[1..], t);
    }
  }

  // ---- What holds on every schedule

  /** Never more handlers in flight than the batch asked for, and none when the next receive starts. */
  lemma InFlightBounded(maxInFlight: nat, schedule: seq<Label>, s: State)
    requires Reaches(Init(maxInFlight), schedule, s)
    ensures CountInFlight(s.workers) <= |s.bodies| - s.start <= maxInFlight
    ensures s.phase.Receiving? ==> CountInFlight(s.workers) == 0
  {
    RunKeepsInv(Init(maxInFlight), schedule, s);
    var before, batch := s.workers[..s.start], s.workers[s.start..];
    assert s.workers == before + batch;
    CountConcat(before, batch);
    forall i | 0 <= i < |before| ensures !InFlight(before[i]) {
      assert WorkerInv(s, i);
    }
    NoneInFlight(before);
    AtMostAll(batch);
    if s.phase.Receiving? {
      forall i | 0 <= i < |s.workers| ensures !InFlight(s.workers[i]) {
        assert WorkerInv(s, i);
      }
      NoneInFlight(s.workers);
    }
  }

  /** No message is ever deleted or handled twice, a delete is attempted only after the message's
      handler returned, and when the next receive starts every non-empty message so far has had
      exactly one attempt and every empty one none. */
  lemma DeletedExactlyOnce(maxInFlight: nat, schedule: seq<Label>, s: State, i: nat)
    requires Reaches(Init(maxInFlight), schedule, s) && i < |s.bodies|
    ensures multiset(s.log)[DeleteAttempted(i)] <= multiset(s.log)[Handled(i)] <= 1
    ensures forall k :: 0 <= k < |s.log| && s.log[k] == DeleteAttempted(i) ==> Handled(i) in s.log[..k]
    ensures s.phase.Receiving? ==>
      multiset(s.log)[DeleteAttempted(i)] == multiset(s.log)[Handled(i)] == if s.bodies[i] == "" then 0 else 1
  {
    RunKeepsInv(Init(maxInFlight), schedule, s);
    assert WorkerInv(s, i);
    assert LoggedAs(s.log, i, PcOf(s.workers, i));
  }

  /** However often Stop is called, the poller's copy of the flag stays down and it never stops. */
  lemma StopHasNoEffect(maxInFlight: nat, schedule: seq<Label>, s: State)
    requires Reaches(Init(maxInFlight), schedule, s)
    ensures POLLER < |s.queues| && !s.queues[POLLER].stopFlag && !s.phase.Stopped?
  {
    RunKeepsInv(Init(maxInFlight), schedule, s);
  }

  // ---- What is received is what is worked on

  function BatchOf(l: Label): seq<string> {
    if l.Receive? then l.batch else []
  }

  /** All messages of a schedule, in the order received. */
  function Received(schedule: seq<Label>): seq<string> {
    if schedule == [] then [] else BatchOf(schedule[0]) + Received(schedule[1..])
  }

  lemma StepAddsBatch(s: State, l: Label)
    requires Enabled(s, l)
    ensures Step(s, l).bodies == s.bodies + BatchOf(l)
  {
  }

  lemma {:induction false} RunAddsBatches(s: State, schedule: seq<Label>, t: State)
    requires Reaches(s, schedule, t)
    ensures t.bodies == s.bodies + Received(schedule)
    decreases |schedule|
  {
    if schedule != [] {
      StepAddsBatch(s, schedule[0]);
      RunAddsBatches(Step(s, schedule[0]), schedule[1..], t);
    }
  }

  /** The poller's messages are the received ones: none is lost, changed or reordered, so what is said
      of message `i` elsewhere is said of the `i`-th message received. */
  lemma ReceivedInOrder(maxInFlight: nat, schedule: seq<Label>, s: State)
    requires Reaches(Init(maxInFlight), schedule, s)
    ensures s.bodies == Received(schedule)
  {
    RunAddsBatches(Init(maxInFlight), schedule, s);
  }

  // ---- The poller always comes back

  function Rank(w: WorkerPc): nat {
    match w
    case Unvisited => 4
    case Handling => 3
    case Deleting => 2
    case Finishing => 1
    case _ => 0
  }

  function TotalRank(ws: seq<WorkerPc>): nat {
    if ws == [] then 0 else Rank(ws[0]) + TotalRank(ws[1..])
  }

  lemma {:induction false} TotalRankUpdate(ws: seq<WorkerPc>, i: nat, w: WorkerPc)
    requires i < |ws|
    ensures TotalRank(ws[i := w]) == TotalRank(ws) - Rank(ws[i]) + Rank(w)
  {
    if i == 0 {
      assert ws[i := w][1..] == ws[1..];
    } else {
      TotalRankUpdate(ws[1..], i - 1, w);
      assert ws[i := w][1..] == ws[1..][i - 1 := w];
    }
  }

  function Remaining(s: State): nat {
    TotalRank(s.workers) + match s.phase case Visiting(_) => 2 case Looping => 1 case _ => 0
  }

  lemma {:induction false} SomeInFlight(ws: seq<WorkerPc>) returns (i: nat)
    requires CountInFlight(ws) > 0
    ensures i < |ws| && InFlight(ws[i])
  {
    if InFlight(ws[0]) {
      i := 0;
    } else {
      i := SomeInFlight(ws[1..]);
      i := i + 1;
    }
  }

  /** A step that brings the next receive nearer. */
  lemma NextStep(s: State) returns (l: Label)
    requires BatchInv(s) && FlagInv(s) && !s.phase.Receiving?
    ensures Enabled(s, l) && Remaining(Step(s, l)) < Remaining(s) && !l.CallStop? && !l.Receive?
  {
    if s.phase.Looping? {
      l := CheckStop;
    } else if s.phase.next < |s.bodies| {
      l := Visit;
      assert WorkerInv(s, s.phase.next);
      TotalRankUpdate(s.workers, s.phase.next, Step(s, l).workers[s.phase.next]);
    } else if s.waitGroup == 0 {
      l := WaitReturns;
    } else {
      var i := SomeInFlight(s.workers);
      l := if s.workers[i].Handling? then HandlerReturns(i) else if s.workers[i].Deleting? then AttemptDelete(i) else Finish(i);
      TotalRankUpdate(s.workers, i, Step(s, l).workers[i]);
    }
  }

  lemma {:induction false} ComesBack(s: State) returns (continuation: seq<Label>, t: State)
    requires Inv(s)
    ensures Reaches(s, continuation, t) && t.phase.Receiving? && Inv(t) && t.bodies == s.bodies
    decreases Remaining(s)
  {
    if s.phase.Receiving? {
      return [], s;
    }
    var l := NextStep(s);
    StepKeepsInv(s, l);
    StepAddsBatch(s, l);
    continuation, t := ComesBack(Step(s, l));
    assert ([l] + continuation)[1..] == continuation;
    continuation := [l] + continuation;
  }

  /** Wherever the poller is, it can come to its next receive with every message received so far
      handled and its delete attempted, exactly once each unless it is empty. */
  lemma AlwaysReceivesAgain(maxInFlight: nat, schedule: seq<Label>, s: State)
    returns (continuation: seq<Label>, t: State)
    requires Reaches(Init(maxInFlight), schedule, s)
    ensures Reaches(s, continuation, t) && t.phase.Receiving? && t.bodies == Received(schedule)
    ensures forall i :: 0 <= i < |t.bodies| ==>
      multiset(t.log)[DeleteAttempted(i)] == multiset(t.log)[Handled(i)] == if t.bodies[i] == "" then 0 else 1
  {
    RunKeepsInv(Init(maxInFlight), schedule, s);
    ReceivedInOrder(maxInFlight, schedule, s);
    continuation, t := ComesBack(s);
    forall i | 0 <= i < |t.bodies|
      ensures multiset(t.log)[DeleteAttempted(i)] == multiset(t.log)[Handled(i)] == if t.bodies[i] == "" then 0 else 1
    {
      assert WorkerInv(t, i);
      assert LoggedAs(t.log, i, PcOf(t.workers, i));
    }
  }
}
