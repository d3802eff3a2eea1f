/** Whole calls as runs of the loader's atomic actions, when nothing else is interleaved. */
module SlotRuns {
  import opened Text
  import opened Status
  import opened Sandbox
  import opened SlotProtocol
  import opened SlotTheorems

  // ---- Composing runs

  lemma {:induction false} RunsCompose(s: State, first: seq<Label>, middle: State, rest: seq<Label>)
    requires Reaches(s, first, middle)
    ensures Exec(s, first + rest) == Exec(middle, rest)
    decreases |first|
  {
    if first == [] {
      assert first + rest == rest;
    } else {
      assert (first + rest)[1..] == first[1..] + rest;
      RunsCompose(Step(s, first[0]), first[1..], middle, rest);
    }
  }

  lemma OneStep(s: State, l: Label)
    requires Enabled(s, l)
    ensures Reaches(s, [l], Step(s, l))
  {
    assert [l][1..] == [];
  }

  lemma Then(s: State, first: seq<Label>, middle: State, l: Label)
    requires Reaches(s, first, middle) && Enabled(middle, l)
    ensures Reaches(s, first + [l], Step(middle, l))
  {
    RunsCompose(s, first, middle, [l]);
    OneStep(middle, l);
  }

  // ---- A container that starts

  /** Handler `h` at `pc` with container `id`, `AddContainer` being this far. */
  function Adding(s: State, h: nat, pc: Pc, id: string): State
    requires h < |s.handlers|
  {
    s.(limiter := s.limiter + [s.handlers[h].request],
       handlers := s.handlers[h := s.handlers[h].(pc := pc, id := id)],
       docker := if id == "" then s.docker else s.docker[id := DockerContainer(h, Live)])
  }

  lemma AddStepTake(s: State, h: nat)
    requires At(s, h, AwaitSlot) && |s.limiter| < s.capacity && s.handlers[h].id == ""
    ensures Enabled(s, TakeSlot(h)) && Step(s, TakeSlot(h)) == Adding(s, h, Preparing, "")
  {
  }

  lemma AddStepCreate(s: State, h: nat, id: string)
    requires At(s, h, AwaitSlot) && id !in s.docker && |id| >= 10
    ensures Enabled(Adding(s, h, Preparing, ""), Create(h, id))
    ensures Step(Adding(s, h, Preparing, ""), Create(h, id)) == Adding(s, h, Starting, id)
  {
  }

  lemma AddStepStart(s: State, h: nat, id: string)
    requires At(s, h, AwaitSlot) && |id| >= 10
    ensures Enabled(Adding(s, h, Starting, id), Start(h))
    ensures Step(Adding(s, h, Starting, id), Start(h)) == Adding(s, h, Storing, id)
    ensures Enabled(Adding(s, h, Storing, id), Store(h))
    ensures Step(Adding(s, h, Storing, id), Store(h))
      == Adding(s, h, Waiting, id).(containers := s.containers[id := h])
  {
  }

  /** A handler that waits for a slot gets through `AddContainer` whenever one is free: its request
      is the newest token, its container is Docker's and the map's new entry, nothing else changes. */
  lemma AddContainerSucceeds(s: State, h: nat, id: string)
    requires Inv(s) && At(s, h, AwaitSlot) && |s.limiter| < s.capacity && id !in s.docker && |id| >= 10
    ensures Reaches(s, [TakeSlot(h)] + [Create(h, id)] + [Start(h)] + [Store(h)],
                    Adding(s, h, Waiting, id).(containers := s.containers[id := h]))
  {
    assert HandlerInv(s, h);
    AddStepTake(s, h);
    AddStepCreate(s, h, id);
    AddStepStart(s, h, id);
    OneStep(s, TakeSlot(h));
    Then(s, [TakeSlot(h)], Adding(s, h, Preparing, ""), Create(h, id));
    Then(s, [TakeSlot(h)] + [Create(h, id)], Adding(s, h, Starting, id), Start(h));
    Then(s, [TakeSlot(h)] + [Create(h, id)] + [Start(h)], Adding(s, h, Storing, id), Store(h));
  }

  /** A failing `Run` leaves the token in the limiter and the map as it was. */
  ghost predicate FailedAdd(s: State, h: nat, t: State) {
    && h < |s.handlers| == |t.handlers| && At(t, h, RunFailed)
    && t == s.(limiter := s.limiter + [s.handlers[h].request], handlers := s.handlers[h := t.handlers[h]], docker := t.docker)
  }

  lemma FailStep(s: State, h: nat, pc: Pc, id: string, l: Label)
    requires At(s, h, AwaitSlot) && s.handlers[h].container == FRESH
    requires (pc == Preparing && l == PrepareFails(h)) || (pc == Starting && l == StartFails(h))
    ensures Enabled(Adding(s, h, pc, id), l) && FailedAdd(s, h, Step(Adding(s, h, pc, id), l))
  {
  }

  lemma AddContainerNotCreated(s: State, h: nat)
    requires Inv(s) && At(s, h, AwaitSlot) && |s.limiter| < s.capacity
    ensures var r := Exec(s, [TakeSlot(h)] + [PrepareFails(h)]); r.Some? && FailedAdd(s, h, r.value)
  {
    assert HandlerInv(s, h);
    AddStepTake(s, h);
    FailStep(s, h, Preparing, "", PrepareFails(h));
    OneStep(s, TakeSlot(h));
    Then(s, [TakeSlot(h)], Adding(s, h, Preparing, ""), PrepareFails(h));
  }

  lemma AddContainerNotStarted(s: State, h: nat, id: string)
    requires Inv(s) && At(s, h, AwaitSlot) && |s.limiter| < s.capacity && id !in s.docker && |id| >= 10
    ensures var r := Exec(s, [TakeSlot(h)] + [Create(h, id)] + [StartFails(h)]); r.Some? && FailedAdd(s, h, r.value)
  {
    assert HandlerInv(s, h);
    AddStepTake(s, h);
    AddStepCreate(s, h, id);
    FailStep(s, h, Starting, id, StartFails(h));
    OneStep(s, TakeSlot(h));
    Then(s, [TakeSlot(h)], Adding(s, h, Preparing, ""), Create(h, id));
    Then(s, [TakeSlot(h)] + [Create(h, id)], Adding(s, h, Starting, id), StartFails(h));
  }

  // ---- An event that is heard

  /** The next event of the stream is for the stored container of handler `h`. */
  ghost predicate EventIsNext(s: State, h: nat, action: string) {
    && h < |s.handlers| && s.loop.Idle? && s.events != []
    && s.events[0] == Message(s.handlers[h].id, action) && |s.handlers[h].id| >= 10
    && s.handlers[h].id in s.containers && s.containers[s.handlers[h].id] == h
  }

  lemma LookupFinds(s: State, h: nat, action: string)
    requires EventIsNext(s, h, action)
    ensures Enabled(s, Lookup)
    ensures Step(s, Lookup) == s.(events := s.events[1..], loop := Dispatching(h, action))
  {
  }

  lemma DispatchReads(s: State, h: nat, file: Option<ExecutionResponse>)
    requires h < |s.handlers| && s.loop == Dispatching(h, "destroy") && |s.handlers[h].id| >= 10
    ensures Enabled(s, Dispatch(file))
    ensures Step(s, Dispatch(file)) == SetContainer(s, h, ReadOutput(s.handlers[h].container, file)).(loop := Recording(h, file))
  {
  }

  lemma RecordThenClose(s: State, h: nat, file: Option<ExecutionResponse>)
    requires h < |s.handlers| && s.loop == Recording(h, file) && s.handlers[h].container.complete.Open?
    ensures Enabled(s, RecordOutput) && Enabled(Step(s, RecordOutput), CloseComplete)
    ensures Step(Step(s, RecordOutput), CloseComplete)
      == SetContainer(s, h, Record(s.handlers[h].container, file).(complete := Closed)).(loop := Idle)
  {
  }

  /** The state after the event loop has handled the next event at one go. */
  function Heard(s: State, h: nat, c: ContainerState): State
    requires h < |s.handlers| && s.events != []
  {
    SetContainer(s.(events := s.events[1..]), h, c)
  }

  /** The event loop's four actions on a destroy amount to one `HandleEvent`. */
  lemma DestroyIsHeard(s: State, h: nat, file: Option<ExecutionResponse>)
    requires EventIsNext(s, h, "destroy") && s.handlers[h].container.complete.Open?
    ensures HandleEvent(s.handlers[h].container, "destroy", file).Ok?
    ensures Reaches(s, [Lookup] + [Dispatch(file)] + [RecordOutput] + [CloseComplete],
                    Heard(s, h, HandleEvent(s.handlers[h].container, "destroy", file).value))
  {
    var c := s.handlers[h].container;
    var s1 := s.(events := s.events[1..], loop := Dispatching(h, "destroy"));
    var s2 := SetContainer(s1, h, ReadOutput(c, file)).(loop := Recording(h, file));
    LookupFinds(s, h, "destroy");
    DispatchReads(s1, h, file);
    RecordThenClose(s2, h, file);
    SameAsHeard(s, h, file, s2);
    OneStep(s, Lookup);
    Then(s, [Lookup], s1, Dispatch(file));
    Then(s, [Lookup] + [Dispatch(file)], s2, RecordOutput);
    Then(s, [Lookup] + [Dispatch(file)] + [RecordOutput], Step(s2, RecordOutput), CloseComplete);
  }

  lemma SameAsHeard(s: State, h: nat, file: Option<ExecutionResponse>, s2: State)
    requires h < |s.handlers| && s.loop.Idle? && s.events != [] && s.handlers[h].container.complete.Open?
    requires s2 == SetContainer(s.(events := s.events[1..], loop := Dispatching(h, "destroy")), h,
                                ReadOutput(s.handlers[h].container, file)).(loop := Recording(h, file))
    ensures HandleEvent(s.handlers[h].container, "destroy", file).Ok?
    ensures SetContainer(s2, h, Record(s2.handlers[h].container, file).(complete := Closed)).(loop := Idle)
      == Heard(s, h, HandleEvent(s.handlers[h].container, "destroy", file).value)
  {
  }

  /** Any other event for a stored container changes it as one `HandleEvent` does, and nothing else. */
  lemma OtherEventIsHeard(s: State, h: nat, action: string, file: Option<ExecutionResponse>)
    requires EventIsNext(s, h, action) && action != "destroy"
    ensures HandleEvent(s.handlers[h].container, action, file).Ok?
    ensures Reaches(s, [Lookup] + [Dispatch(file)],
                    Heard(s, h, HandleEvent(s.handlers[h].container, action, file).value))
  {
    var s1 := s.(events := s.events[1..], loop := Dispatching(h, action));
    LookupFinds(s, h, action);
    OneStep(s, Lookup);
    Then(s, [Lookup], s1, Dispatch(file));
  }

  /** In a reachable state the next event is for a container that is not stored, or meets what is
      asked above; a destroy finds the channel open. */
  lemma NextEvent(s: State)
    requires Inv(s) && s.loop.Idle? && s.events != [] && s.events[0].id in s.containers
    ensures EventIsNext(s, s.containers[s.events[0].id], s.events[0].action)
    ensures s.events[0].action == "destroy" ==>
      s.handlers[s.containers[s.events[0].id]].container.complete.Open?
  {
    var h := s.containers[s.events[0].id];
    assert HandlerInv(s, h);
    assert DestroyOnce(s, s.events[0].id);
  }

  // ---- A handler that gives its slot back

  function Removed(s: State, h: nat): State
    requires h < |s.handlers| && s.limiter != []
  {
    Goto(s, h, Done).(limiter := s.limiter[1..], containers := s.containers - {s.handlers[h].id})
  }

  lemma ReleaseThenDelete(s: State, h: nat)
    requires Enabled(s, ReleaseSlot(h))
    ensures Enabled(Step(s, ReleaseSlot(h)), Delete(h)) && Step(Step(s, ReleaseSlot(h)), Delete(h)) == Removed(s, h)
  {
    assert Goto(Goto(s, h, Deleting), h, Done) == Goto(s, h, Done);
  }

  /** A handler past its upload gets through `RemoveContainer`: the oldest token and its own entry go. */
  lemma RemoveContainerSucceeds(s: State, h: nat)
    requires Enabled(s, ReleaseSlot(h))
    ensures Reaches(s, [ReleaseSlot(h)] + [Delete(h)], Removed(s, h))
  {
    ReleaseThenDelete(s, h);
    OneStep(s, ReleaseSlot(h));
    Then(s, [ReleaseSlot(h)], Step(s, ReleaseSlot(h)), Delete(h));
  }
}
