/** The interleaved protocol and the state machine of one container agree: on every schedule a
    handler's container is what its own events make of a fresh one, and the verdict is the verdict
    on that trace and on the test the request arrived with. */
module SlotTraces {
  import opened Text
  import opened Status
  import opened Sandbox
  import opened SlotProtocol
  import opened SlotTheorems

  /** The event that a step lets handler `h`'s container hear. */
  function HeardBy(s: State, l: Label, h: nat): seq<Event> {
    if l.Dispatch? && s.loop.Dispatching? && s.loop.h == h then [Event(s.loop.action, l.file)] else []
  }

  /** The events that handler `h`'s container hears in a run. */
  function Heard(s: State, schedule: seq<Label>, h: nat): seq<Event>
    decreases |schedule|
  {
    if schedule == [] || !Enabled(s, schedule[0]) then []
    else HeardBy(s, schedule[0], h) + Heard(Step(s, schedule[0]), schedule[1..], h)
  }

  /** Until the run fails or the response is read, only events change the container. */
  predicate OnlyEvents(x: Handler) {
    x.pc.AwaitSlot? || x.pc.Preparing? || x.pc.Starting? || x.pc.Storing? || x.pc.Waiting? || x.pc.Woken? || x.pc.TimedOut?
  }

  /** The trace without a destroy that is still being handled. */
  ghost predicate AllButDestroy(trace: seq<Event>, file: Option<ExecutionResponse>, d: ContainerState) {
    && trace != [] && trace[|trace| - 1] == Event("destroy", file)
    && Replay(FRESH, trace[..|trace| - 1]) == Ok(d)
  }

  /** The event loop is inside `handleContainerRemoved` of handler `h`'s container. */
  predicate Destroying(loop: Loop, h: nat) {
    (loop.Recording? || loop.Closing?) && loop.h == h
  }

  /** Where the container of handler `h` stands in the replay of its trace. */
  ghost predicate Tracks(c: ContainerState, loop: Loop, h: nat, trace: seq<Event>) {
    if loop.Recording? && loop.h == h then
      exists d :: AllButDestroy(trace, loop.file, d) && c == ReadOutput(d, loop.file)
    else if loop.Closing? && loop.h == h then
      exists d, file :: AllButDestroy(trace, file, d) && c == Record(ReadOutput(d, file), file)
    else Replay(FRESH, trace) == Ok(c)
  }

  ghost predicate Tracked(s: State, h: nat, trace: seq<Event>) {
    && (h >= |s.handlers| ==> trace == [])
    && (h < |s.handlers| && OnlyEvents(s.handlers[h]) ==> Tracks(s.handlers[h].container, s.loop, h, trace))
  }

  // ---- The event loop's steps, on values

  lemma DestroyBegins(c: ContainerState, trace: seq<Event>, h: nat, file: Option<ExecutionResponse>)
    requires Replay(FRESH, trace) == Ok(c)
    ensures Tracks(ReadOutput(c, file), Recording(h, file), h, trace + [Event("destroy", file)])
  {
    var more := trace + [Event("destroy", file)];
    assert more[..|more| - 1] == trace;
    assert AllButDestroy(more, file, c);
  }

  lemma OtherHeard(c: ContainerState, trace: seq<Event>, h: nat, e: Event)
    requires Replay(FRESH, trace) == Ok(c) && e.action != "destroy"
    ensures Tracks(SetStatus(c, e.action), Idle, h, trace + [e])
  {
    ReplayAppend(FRESH, trace, e);
  }

  lemma DestroyRecorded(c: ContainerState, trace: seq<Event>, h: nat, file: Option<ExecutionResponse>)
    requires Tracks(c, Recording(h, file), h, trace)
    ensures Tracks(Record(c, file), SlotProtocol.Closing(h), h, trace)
  {
    var d :| AllButDestroy(trace, file, d) && c == ReadOutput(d, file);
    assert AllButDestroy(trace, file, d) && Record(c, file) == Record(ReadOutput(d, file), file);
  }

  lemma DestroyEnds(c: ContainerState, trace: seq<Event>, h: nat)
    requires Tracks(c, SlotProtocol.Closing(h), h, trace) && Cleanup(c).Ok?
    ensures Tracks(Cleanup(c).value, Idle, h, trace)
  {
    var d, file :| AllButDestroy(trace, file, d) && c == Record(ReadOutput(d, file), file);
    var before := trace[..|trace| - 1];
    assert trace == before + [Event("destroy", file)];
    ReplayAppend(FRESH, before, Event("destroy", file));
  }

  // ---- Every step

  lemma LoopStepTracks(s: State, l: Label, h: nat, trace: seq<Event>)
    requires Enabled(s, l) && (l.Dispatch? || l.RecordOutput? || l.CloseComplete?) && s.loop.h == h
    requires h < |s.handlers| && |s.handlers[h].id| >= 10 && OnlyEvents(s.handlers[h])
    requires l.CloseComplete? ==> Cleanup(s.handlers[h].container).Ok?
    requires Tracks(s.handlers[h].container, s.loop, h, trace)
    ensures var t := Step(s, l);
      h < |t.handlers| && Tracks(t.handlers[h].container, t.loop, h, trace + HeardBy(s, l, h))
  {
    var c := s.handlers[h].container;
    match l {
      case Dispatch(file) =>
        if s.loop.action == "destroy" {
          DestroyBegins(c, trace, h, file);
        } else {
          OtherHeard(c, trace, h, Event(s.loop.action, file));
        }
      case RecordOutput =>
        DestroyRecorded(c, trace, h, s.loop.file);
        assert trace + [] == trace;
      case CloseComplete =>
        DestroyEnds(c, trace, h);
        assert trace + [] == trace;
    }
  }

  /** The event loop's steps on another container, or between messages. */
  lemma LoopElsewhere(s: State, l: Label, h: nat)
    requires Enabled(s, l) && IsLoopAction(l) && h < |s.handlers|
    requires l.Lookup? || l.Stop? || s.loop.h != h
    ensures var t := Step(s, l);
      && |t.handlers| == |s.handlers| && t.handlers[h] == s.handlers[h]
      && !Destroying(s.loop, h) && !Destroying(t.loop, h)
  {
  }

  /** A handler's own steps leave its container alone, or it is no longer followed. */
  lemma RunStepKeeps(s: State, l: Label, h: nat)
    requires Enabled(s, l) && h < |s.handlers|
    requires l.TakeSlot? || l.PrepareFails? || l.Create? || l.StartFails? || l.Start? || l.Store?
    ensures var t := Step(s, l);
      && |t.handlers| == |s.handlers| && t.loop == s.loop
      && (OnlyEvents(t.handlers[h]) ==> OnlyEvents(s.handlers[h]) && t.handlers[h].container == s.handlers[h].container)
  {
  }

  lemma WaitStepKeeps(s: State, l: Label, h: nat)
    requires Enabled(s, l) && h < |s.handlers|
    requires l.Wake? || l.TimeOut? || l.ReadResponse? || l.ReleaseSlot? || l.Delete?
    requires l.ReadResponse? ==>
      && s.handlers[l.h].id in s.containers && s.containers[s.handlers[l.h].id] == l.h
      && GetResponse(s.handlers[l.h].container, s.handlers[l.h].test).Ok?
    ensures var t := Step(s, l);
      && |t.handlers| == |s.handlers| && t.loop == s.loop
      && (OnlyEvents(t.handlers[h]) ==> OnlyEvents(s.handlers[h]) && t.handlers[h].container == s.handlers[h].container)
  {
  }

  lemma OutsideKeeps(s: State, l: Label, h: nat)
    requires Enabled(s, l) && (l.Arrive? || l.Remove? || l.Announce? || l.Emit?)
    ensures var t := Step(s, l);
      && |t.handlers| >= |s.handlers| && t.loop == s.loop
      && (h < |s.handlers| ==> t.handlers[h] == s.handlers[h])
      && (|s.handlers| <= h < |t.handlers| ==> t.handlers[h].container == FRESH)
  {
  }

  lemma SameTracks(c: ContainerState, before: Loop, after: Loop, h: nat, trace: seq<Event>)
    requires Tracks(c, before, h, trace)
    requires after == before || (!Destroying(before, h) && !Destroying(after, h))
    ensures Tracks(c, after, h, trace + [])
  {
    assert trace + [] == trace;
  }

  lemma StepTracksPresent(s: State, l: Label, h: nat, trace: seq<Event>)
    requires Inv(s) && Enabled(s, l) && h < |s.handlers| && OnlyEvents(s.handlers[h])
    requires Tracks(s.handlers[h].container, s.loop, h, trace)
    ensures Tracked(Step(s, l), h, trace + HeardBy(s, l, h))
  {
    var t := Step(s, l);
    NoPanic(s, l);
    if (l.Dispatch? || l.RecordOutput? || l.CloseComplete?) && s.loop.h == h {
      assert HandlerInv(s, h);
      LoopStepTracks(s, l, h, trace);
    } else {
      assert HeardBy(s, l, h) == [];
      if IsLoopAction(l) {
        LoopElsewhere(s, l, h);
      } else if l.Arrive? || l.Remove? || l.Announce? || l.Emit? {
        OutsideKeeps(s, l, h);
      } else if l.Wake? || l.TimeOut? || l.ReadResponse? || l.ReleaseSlot? || l.Delete? {
        WaitStepKeeps(s, l, h);
      } else {
        RunStepKeeps(s, l, h);
      }
      SameTracks(s.handlers[h].container, s.loop, t.loop, h, trace);
    }
  }

  lemma StepTracks(s: State, l: Label, h: nat, trace: seq<Event>)
    requires Inv(s) && Enabled(s, l) && Tracked(s, h, trace)
    ensures Tracked(Step(s, l), h, trace + HeardBy(s, l, h))
  {
    if h >= |s.handlers| {
      HandlersGrow(s, l);
      assert trace + HeardBy(s, l, h) == [];
      if l.Arrive? {
        OutsideKeeps(s, l, h);
      }
    } else if OnlyEvents(s.handlers[h]) {
      StepTracksPresent(s, l, h, trace);
    } else {
      NeverAgain(s, l, h);
    }
  }

  /** A handler that is no longer followed is not followed again. */
  lemma NeverAgain(s: State, l: Label, h: nat)
    requires Inv(s) && Enabled(s, l) && h < |s.handlers| && !OnlyEvents(s.handlers[h])
    ensures h < |Step(s, l).handlers| && !OnlyEvents(Step(s, l).handlers[h])
  {
    NoPanic(s, l);
    if IsLoopAction(l) {
      LoopKeepsPlace(s, l, h);
    } else if l.Arrive? || l.Remove? || l.Announce? || l.Emit? {
      OutsideKeeps(s, l, h);
    } else if l.Wake? || l.TimeOut? || l.ReadResponse? || l.ReleaseSlot? || l.Delete? {
      WaitStepKeeps(s, l, h);
    } else {
      RunStepKeeps(s, l, h);
    }
  }

  lemma LoopKeepsPlace(s: State, l: Label, h: nat)
    requires Enabled(s, l) && IsLoopAction(l) && h < |s.handlers|
    ensures |Step(s, l).handlers| == |s.handlers| && Step(s, l).handlers[h].pc == s.handlers[h].pc
  {
  }

  lemma {:induction false} RunTracks(s: State, schedule: seq<Label>, t: State, h: nat, trace: seq<Event>)
    requires Inv(s) && Reaches(s, schedule, t) && Tracked(s, h, trace)
    ensures Tracked(t, h, trace + Heard(s, schedule, h))
    decreases |schedule|
  {
    if schedule == [] {
      assert trace + [] == trace;
    } else {
      var l, rest := schedule[0], schedule[1..];
      StepTracks(s, l, h, trace);
      StepKeepsInv(s, l);
      RunTracks(Step(s, l), rest, t, h, trace + HeardBy(s, l, h));
      assert trace + (HeardBy(s, l, h) + Heard(Step(s, l), rest, h))
          == trace + HeardBy(s, l, h) + Heard(Step(s, l), rest, h);
    }
  }

  // ---- On every schedule

  /** Whatever is interleaved, a handler's container is the replay of the events it heard, as long as
      its run has not failed, its response is not read and its destroy is not half done. */
  lemma ContainerIsReplay(capacity: nat, schedule: seq<Label>, s: State, h: nat)
    requires Reaches(Init(capacity), schedule, s)
    requires h < |s.handlers| && OnlyEvents(s.handlers[h]) && !Destroying(s.loop, h)
    ensures Replay(FRESH, Heard(Init(capacity), schedule, h)) == Ok(s.handlers[h].container)
  {
    RunTracks(Init(capacity), schedule, s, h, []);
    assert [] + Heard(Init(capacity), schedule, h) == Heard(Init(capacity), schedule, h);
  }

  /** Once closed, the event loop is done with the destroy. */
  lemma ClosedIsDone(s: State, h: nat)
    requires Inv(s) && h < |s.handlers| && At(s, h, Woken)
    ensures !Destroying(s.loop, h) && s.handlers[h].container.complete.Closed?
  {
    assert HandlerInv(s, h);
    assert DestroyOnce(s, s.handlers[h].id);
  }

  /** The response and the verdict of a woken handler, from the schedule alone: its container heard
      one destroy, the response is the file read then, and the test its request arrived with passed
      exactly when the last status heard is Finished and that file's output is the expected one. */
  lemma WokenVerdict(capacity: nat, schedule: seq<Label>, s: State, h: nat)
    requires Reaches(Init(capacity), schedule, s) && At(s, h, Woken)
    ensures h < |Arrivals(schedule)| && |DestroyFiles(Heard(Init(capacity), schedule, h))| == 1
    ensures
      var trace, test := Heard(Init(capacity), schedule, h), Arrivals(schedule)[h].test;
      var file, y := DestroyFiles(trace)[0], Step(s, ReadResponse(h)).handlers[h];
      && y.pc.Releasing?
      && y.pc.response.result == (if file.Some? then file.value else ExecutionResponse(0, [], [], [], 0, 0, NOT_RAN))
      && (y.pc.response.testStatus == TestPassed <==>
            LastStatus(trace) == FINISHED && test.Some? && file.Some? && file.value.output == test.value.expected)
      && (y.pc.response.testStatus == NoTest <==> LastStatus(trace) != FINISHED || test.None?)
  {
    ReachableInv(capacity, schedule, s);
    ClosedIsDone(s, h);
    ContainerIsReplay(capacity, schedule, s, h);
    ReplayMeaning(Heard(Init(capacity), schedule, h));
    WokenHandlerProceeds(capacity, schedule, s, h);
    VerdictOfTrace(Heard(Init(capacity), schedule, h), Arrivals(schedule)[h].test);
  }
}
