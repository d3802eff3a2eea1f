/** The manager as an object and the loader as atomic actions agree: a call that no other process
    interrupts takes a manager that represents a state of `SlotProtocol` to one that represents the
    state the call's actions lead to. */
module ManagerRuns {
  import opened Text
  import opened Sandbox
  import opened SlotProtocol
  import opened SlotRuns
  import M = Manager

  ghost predicate Matches(c: Container, x: Handler)
    reads c
  {
    c.id == x.id && c.test == x.test && c.State() == x.container
  }

  /** The same limiter, and under the same ids the containers of the handlers that stored them. */
  ghost predicate Represents(m: M.ContainerManager, s: State)
    reads m, m.containers.Values
  {
    && m.capacity == s.capacity && m.limiter == s.limiter
    && m.containers.Keys == s.containers.Keys
    && forall id :: id in m.containers ==>
         && s.containers[id] < |s.handlers| && s.handlers[s.containers[id]].id == id
         && Matches(m.containers[id], s.handlers[s.containers[id]])
  }

  /** A new manager represents the initial state. */
  method New(capacity: nat) returns (m: M.ContainerManager)
    ensures fresh(m) && m.Valid() && Represents(m, Init(capacity)) && Inv(Init(capacity))
  {
    m := new M.ContainerManager(capacity);
  }

  // ---- AddContainer

  /** What Docker promises of a new container's id. */
  ghost predicate NewId(s: State, run: M.RunOutcome) {
    run.NotCreated? || (run.id !in s.docker && |run.id| >= 10)
  }

  function AddSchedule(h: nat, run: M.RunOutcome): seq<Label> {
    match run
    case Started(id) => [TakeSlot(h)] + [Create(h, id)] + [Start(h)] + [Store(h)]
    case NotCreated => [TakeSlot(h)] + [PrepareFails(h)]
    case NotStarted(id) => [TakeSlot(h)] + [Create(h, id)] + [StartFails(h)]
  }

  /** Handler `h`, which has nothing stored yet, gets through with this outcome. */
  ghost predicate AddEffect(s: State, h: nat, run: M.RunOutcome, t: State) {
    && h < |s.handlers| == |t.handlers| && t.handlers == s.handlers[h := t.handlers[h]]
    && (forall id :: id in s.containers ==> s.containers[id] != h)
    && t.capacity == s.capacity && t.limiter == s.limiter + [s.handlers[h].request]
    && if run.Started? then
         && t.containers == s.containers[run.id := h]
         && t.handlers[h] == s.handlers[h].(pc := Waiting, id := run.id, container := FRESH)
       else t.containers == s.containers && t.handlers[h].pc == RunFailed
  }

  lemma NothingStored(s: State, h: nat)
    requires Inv(s) && At(s, h, AwaitSlot)
    ensures s.handlers[h].container == FRESH && forall id :: id in s.containers ==> s.containers[id] != h
  {
    assert HandlerInv(s, h);
  }

  lemma AddRun(s: State, h: nat, run: M.RunOutcome) returns (t: State)
    requires Inv(s) && Enabled(s, TakeSlot(h)) && NewId(s, run)
    ensures Reaches(s, AddSchedule(h, run), t) && AddEffect(s, h, run, t) && Inv(t)
  {
    NothingStored(s, h);
    match run {
      case Started(id) => AddContainerSucceeds(s, h, id);
      case NotCreated => AddContainerNotCreated(s, h);
      case NotStarted(id) => AddContainerNotStarted(s, h, id);
    }
    t := Exec(s, AddSchedule(h, run)).value;
    RunKeepsInv(s, AddSchedule(h, run), t);
  }

  method AddWithEffect(m: M.ContainerManager, ghost s: State, ghost h: nat, ghost t: State,
                       request: string, test: Option<Test>, run: M.RunOutcome) returns (r: M.AddResult)
    requires m.Valid() && Represents(m, s) && |s.limiter| < s.capacity && AddEffect(s, h, run, t)
    requires s.handlers[h].request == request && s.handlers[h].test == test
    modifies m`limiter, m`containers
    ensures m.Valid() && Represents(m, t)
    ensures forall id :: id in m.containers ==>
      (id in old(m.containers) && m.containers[id] == old(m.containers)[id]) || fresh(m.containers[id])
    ensures if run.Started? then r.Added? && run.id in m.containers && m.containers[run.id] == r.container else r.AddFailed?
  {
    r := m.AddContainer(request, test, run);
  }

  /** It blocks exactly when the send does; otherwise it is the run of its actions. */
  method AddContainer(m: M.ContainerManager, ghost s: State, ghost h: nat,
                      request: string, test: Option<Test>, run: M.RunOutcome) returns (r: M.AddResult, ghost t: State)
    requires m.Valid() && Represents(m, s) && Inv(s) && NewId(s, run)
    requires At(s, h, AwaitSlot) && s.handlers[h].request == request && s.handlers[h].test == test
    modifies m`limiter, m`containers
    ensures m.Valid() && Represents(m, t) && Inv(t)
    ensures forall id :: id in m.containers ==>
      (id in old(m.containers) && m.containers[id] == old(m.containers)[id]) || fresh(m.containers[id])
    ensures r.AddBlocked? <==> !Enabled(s, TakeSlot(h))
    ensures if r.AddBlocked? then t == s else Reaches(s, AddSchedule(h, run), t)
    ensures r.Added? <==> run.Started? && Enabled(s, TakeSlot(h))
    ensures r.Added? ==> run.id in m.containers && m.containers[run.id] == r.container
  {
    if |m.limiter| < m.capacity {
      t := AddRun(s, h, run);
      r := AddWithEffect(m, s, h, t, request, test, run);
    } else {
      t := s;
      r := m.AddContainer(request, test, run);
    }
  }

  // ---- GetResponse

  /** The container of handler `h` is stored and changes to `c`. */
  ghost predicate ContainerEffect(s: State, h: nat, id: string, c: ContainerState, t: State) {
    && h < |s.handlers| == |t.handlers| && id in s.containers && s.containers[id] == h
    && t.capacity == s.capacity && t.limiter == s.limiter && t.containers == s.containers
    && t.handlers == s.handlers[h := t.handlers[h]]
    && t.handlers[h].id == s.handlers[h].id && t.handlers[h].test == s.handlers[h].test && t.handlers[h].container == c
  }

  lemma ReadRun(s: State, h: nat) returns (t: State)
    requires Inv(s) && At(s, h, Woken)
    ensures Reaches(s, [SlotProtocol.ReadResponse(h)], t) && Inv(t)
    ensures var c := s.handlers[h].container;
      && Sandbox.GetResponse(c, s.handlers[h].test).Ok?
      && ContainerEffect(s, h, s.handlers[h].id, AfterGetResponse(c), t)
      && At(t, h, Releasing(Sandbox.GetResponse(c, s.handlers[h].test).value))
  {
    NoPanic(s, SlotProtocol.ReadResponse(h));
    StepKeepsInv(s, SlotProtocol.ReadResponse(h));
    OneStep(s, SlotProtocol.ReadResponse(h));
    t := Step(s, SlotProtocol.ReadResponse(h));
    ReadEffect(s, h, s.handlers[h].id);
  }

  lemma ReadEffect(s: State, h: nat, id: string)
    requires At(s, h, Woken) && s.handlers[h].id == id && id in s.containers && s.containers[id] == h
    requires Sandbox.GetResponse(s.handlers[h].container, s.handlers[h].test).Ok?
    ensures var t := Step(s, SlotProtocol.ReadResponse(h));
      && ContainerEffect(s, h, id, AfterGetResponse(s.handlers[h].container), t)
      && At(t, h, Releasing(Sandbox.GetResponse(s.handlers[h].container, s.handlers[h].test).value))
  {
    var t := Step(s, SlotProtocol.ReadResponse(h));
    assert t.handlers == s.handlers[h := t.handlers[h]];
  }

  method ReadWithEffect(m: M.ContainerManager, ghost s: State, ghost h: nat, ghost t: State, id: string)
    returns (r: Option<Outcome<Response>>)
    requires Represents(m, s) && id in s.containers && h == s.containers[id]
    requires Sandbox.GetResponse(s.handlers[h].container, s.handlers[h].test).Ok?
    requires ContainerEffect(s, h, id, AfterGetResponse(s.handlers[h].container), t)
    modifies m.containers.Values
    ensures Represents(m, t) && r == Some(Sandbox.GetResponse(s.handlers[h].container, s.handlers[h].test))
  {
    r := m.GetResponse(id);
  }

  /** A woken handler gets the response that is the protocol's, without nil or panic. */
  method GetResponse(m: M.ContainerManager, ghost s: State, ghost h: nat, id: string)
    returns (r: Option<Outcome<Response>>, ghost t: State)
    requires m.Valid() && Represents(m, s) && Inv(s) && At(s, h, Woken) && s.handlers[h].id == id
    modifies m.containers.Values
    ensures m.Valid() && Represents(m, t) && Inv(t)
    ensures Reaches(s, [SlotProtocol.ReadResponse(h)], t)
    ensures r.Some? && r.value.Ok? && At(t, h, Releasing(r.value.value))
  {
    t := ReadRun(s, h);
    r := ReadWithEffect(m, s, h, t, id);
  }

  // ---- RemoveContainer

  lemma RemoveRun(s: State, h: nat) returns (t: State)
    requires Inv(s) && h < |s.handlers| && s.handlers[h].pc.Releasing?
    ensures s.limiter != [] && t == Removed(s, h)
    ensures Reaches(s, [ReleaseSlot(h)] + [Delete(h)], t) && Inv(t)
  {
    Localise(s, h);
    RemoveContainerSucceeds(s, h);
    t := Removed(s, h);
    RunKeepsInv(s, [ReleaseSlot(h)] + [Delete(h)], t);
  }

  method RemoveWithEffect(m: M.ContainerManager, ghost s: State, ghost h: nat, id: string) returns (r: M.RemoveResult)
    requires m.Valid() && Represents(m, s) && h < |s.handlers| && s.handlers[h].id == id && s.limiter != []
    modifies m`limiter, m`containers
    ensures m.Valid() && Represents(m, Removed(s, h)) && r.Removed? && m.containers == old(m.containers) - {id}
  {
    r := m.RemoveContainer(id, false, false);
  }

  /** The receive does not block. */
  method RemoveContainer(m: M.ContainerManager, ghost s: State, ghost h: nat, id: string)
    returns (r: M.RemoveResult, ghost t: State)
    requires m.Valid() && Represents(m, s) && Inv(s)
    requires h < |s.handlers| && s.handlers[h].pc.Releasing? && s.handlers[h].id == id
    modifies m`limiter, m`containers
    ensures m.Valid() && Represents(m, t) && Inv(t) && m.containers == old(m.containers) - {id}
    ensures r.Removed? && Reaches(s, [ReleaseSlot(h)] + [Delete(h)], t) && At(t, h, Done)
  {
    t := RemoveRun(s, h);
    r := RemoveWithEffect(m, s, h, id);
  }

  // ---- HandleMessage

  function EventSchedule(stored: bool, e: Event): seq<Label> {
    if !stored then [Lookup]
    else if e.action == "destroy" then [Lookup] + [Dispatch(e.file)] + [RecordOutput] + [CloseComplete]
    else [Lookup] + [Dispatch(e.file)]
  }

  /** The effect of the next event when it is handled at one go. */
  ghost predicate EventEffect(s: State, e: Event, t: State)
    requires s.events != []
  {
    var id := s.events[0].id;
    if id in s.containers then
      && s.containers[id] < |s.handlers| && |id| >= 10
      && HandleEvent(s.handlers[s.containers[id]].container, e.action, e.file).Ok?
      && t == Heard(s, s.containers[id], HandleEvent(s.handlers[s.containers[id]].container, e.action, e.file).value)
    else t == s.(events := s.events[1..])
  }

  lemma EventRun(s: State, e: Event) returns (t: State)
    requires Inv(s) && s.loop.Idle? && s.events != [] && s.events[0].action == e.action
    ensures Reaches(s, EventSchedule(s.events[0].id in s.containers, e), t) && EventEffect(s, e, t) && Inv(t)
  {
    var id := s.events[0].id;
    if id in s.containers {
      var h := s.containers[id];
      NextEvent(s);
      if e.action == "destroy" { DestroyIsHeard(s, h, e.file); } else { OtherEventIsHeard(s, h, e.action, e.file); }
      t := Heard(s, h, HandleEvent(s.handlers[h].container, e.action, e.file).value);
    } else {
      OneStep(s, Lookup);
      t := s.(events := s.events[1..]);
    }
    RunKeepsInv(s, EventSchedule(id in s.containers, e), t);
  }

  method HandleWithEffect(m: M.ContainerManager, ghost s: State, ghost t: State, id: string, e: Event)
    returns (panicked: bool)
    requires Represents(m, s) && s.events != [] && s.events[0].id == id && EventEffect(s, e, t)
    modifies m.containers.Values
    ensures Represents(m, t) && !panicked
  {
    panicked := m.HandleMessage(id, e);
  }

  /** The next event of the stream is handled without a panic. */
  method HandleMessage(m: M.ContainerManager, ghost s: State, id: string, e: Event)
    returns (panicked: bool, ghost t: State)
    requires m.Valid() && Represents(m, s) && Inv(s)
    requires s.loop.Idle? && s.events != [] && s.events[0] == Message(id, e.action)
    modifies m.containers.Values
    ensures m.Valid() && Represents(m, t) && Inv(t)
    ensures !panicked && Reaches(s, EventSchedule(id in m.containers, e), t) && t.loop.Idle?
  {
    t := EventRun(s, e);
    panicked := HandleWithEffect(m, s, t, id, e);
  }

  // ---- Every history of calls

  /** A finished call, or an action of the handlers or of Docker that does not call the manager. */
  datatype Call =
    | Add(h: nat, request: string, test: Option<Test>, run: M.RunOutcome)
    | Read(h: nat, id: string)
    | Release(h: nat, id: string)
    | Hear(id: string, e: Event)
    | Outside(l: Label)

  predicate IsOutside(l: Label) {
    l.Arrive? || l.Wake? || l.TimeOut? || l.Remove? || l.Announce? || l.Emit? || l.Stop?
  }

  ghost predicate Legal(s: State, c: Call) {
    match c
    case Add(h, request, test, run) =>
      Enabled(s, TakeSlot(h)) && s.handlers[h].request == request && s.handlers[h].test == test && NewId(s, run)
    case Read(h, id) => At(s, h, Woken) && s.handlers[h].id == id
    case Release(h, id) => h < |s.handlers| && s.handlers[h].pc.Releasing? && s.handlers[h].id == id
    case Hear(id, e) => s.loop.Idle? && s.events != [] && s.events[0] == Message(id, e.action)
    case Outside(l) => IsOutside(l) && Enabled(s, l)
  }

  function Actions(s: State, c: Call): seq<Label> {
    match c
    case Add(h, _, _, run) => AddSchedule(h, run)
    case Read(h, _) => [SlotProtocol.ReadResponse(h)]
    case Release(h, _) => [ReleaseSlot(h)] + [Delete(h)]
    case Hear(id, e) => EventSchedule(id in s.containers, e)
    case Outside(l) => [l]
  }

  /** The state after a history in which no call interrupts another. */
  ghost function After(s: State, calls: seq<Call>): Option<State>
    decreases |calls|
  {
    if calls == [] then Some(s)
    else if !Legal(s, calls[0]) then None
    else match Exec(s, Actions(s, calls[0])) case None => None case Some(t) => After(t, calls[1..])
  }

  /** Every such history is a schedule of the protocol. */
  lemma {:induction false} HistoryIsSchedule(s: State, calls: seq<Call>) returns (schedule: seq<Label>)
    requires After(s, calls).Some?
    ensures Reaches(s, schedule, After(s, calls).value)
    decreases |calls|
  {
    if calls == [] {
      return [];
    }
    var t := Exec(s, Actions(s, calls[0])).value;
    var rest := HistoryIsSchedule(t, calls[1..]);
    RunsCompose(s, Actions(s, calls[0]), t, rest);
    schedule := Actions(s, calls[0]) + rest;
  }

  lemma OutsideStep(s: State, l: Label, h: nat)
    requires IsOutside(l) && Enabled(s, l) && h < |s.handlers|
    ensures var t := Step(s, l);
      && t.capacity == s.capacity && t.limiter == s.limiter && t.containers == s.containers
      && |s.handlers| <= |t.handlers| && t.handlers[h].(pc := s.handlers[h].pc) == s.handlers[h]
  {
  }

  ghost method OutsideRun(m: M.ContainerManager, s: State, l: Label) returns (t: State)
    requires Represents(m, s) && Inv(s) && IsOutside(l) && Enabled(s, l)
    ensures Represents(m, t) && Inv(t) && Reaches(s, [l], t)
  {
    t := Step(s, l);
    OneStep(s, l);
    StepKeepsInv(s, l);
    if s.handlers != [] {
      OutsideStep(s, l, 0);
    }
    forall id | id in m.containers
      ensures t.containers[id] < |t.handlers| && t.handlers[t.containers[id]].id == id
      ensures Matches(m.containers[id], t.handlers[t.containers[id]])
    {
      OutsideStep(s, l, s.containers[id]);
    }
  }

  method PerformOnContainer(m: M.ContainerManager, ghost s: State, c: Call) returns (ghost t: State)
    requires m.Valid() && Represents(m, s) && Inv(s) && Legal(s, c) && (c.Read? || c.Hear?)
    modifies m.containers.Values
    ensures m.Valid() && Represents(m, t) && Inv(t) && Reaches(s, Actions(s, c), t)
  {
    if c.Read? {
      var r;
      r, t := GetResponse(m, s, c.h, c.id);
    } else {
      var panicked;
      panicked, t := HandleMessage(m, s, c.id, c.e);
    }
  }

  method PerformOnSlots(m: M.ContainerManager, ghost s: State, c: Call) returns (ghost t: State)
    requires m.Valid() && Represents(m, s) && Inv(s) && Legal(s, c) && (c.Add? || c.Release?)
    modifies m`limiter, m`containers
    ensures m.Valid() && Represents(m, t) && Inv(t) && Reaches(s, Actions(s, c), t)
    ensures forall id :: id in m.containers ==>
      (id in old(m.containers) && m.containers[id] == old(m.containers)[id]) || fresh(m.containers[id])
  {
    if c.Add? {
      var r;
      r, t := AddContainer(m, s, c.h, c.request, c.test, c.run);
    } else {
      var r;
      r, t := RemoveContainer(m, s, c.h, c.id);
    }
  }

  method Perform(m: M.ContainerManager, ghost s: State, c: Call) returns (ghost t: State)
    requires m.Valid() && Represents(m, s) && Inv(s) && Legal(s, c)
    modifies m, m.containers.Values
    ensures m.Valid() && Represents(m, t) && Inv(t) && Reaches(s, Actions(s, c), t)
    ensures forall id :: id in m.containers ==>
      (id in old(m.containers) && m.containers[id] == old(m.containers)[id]) || fresh(m.containers[id])
  {
    if c.Outside? {
      t := OutsideRun(m, s, c.l);
    } else if c.Read? || c.Hear? {
      t := PerformOnContainer(m, s, c);
    } else {
      t := PerformOnSlots(m, s, c);
    }
  }

  /** A manager that lives through any history of calls represents the protocol's state at its end,
      which a schedule of the protocol reaches: what holds of those states holds of the manager. */
  method Live(capacity: nat, calls: seq<Call>) returns (m: M.ContainerManager, ghost schedule: seq<Label>, ghost t: State)
    requires After(Init(capacity), calls).Some?
    ensures fresh(m) && m.Valid() && Represents(m, t)
    ensures After(Init(capacity), calls) == Some(t) && Reaches(Init(capacity), schedule, t)
  {
    m := New(capacity);
    t := Init(capacity);
    for i := 0 to |calls|
      invariant m.Valid() && Represents(m, t) && Inv(t)
      invariant fresh(m) && forall id :: id in m.containers ==> fresh(m.containers[id])
      invariant After(t, calls[i..]) == After(Init(capacity), calls)
    {
      assert calls[i..][0] == calls[i] && calls[i..][1..] == calls[i + 1..];
      t := Perform(m, t, calls[i]);
    }
    assert calls[|calls|..] == [];
    schedule := HistoryIsSchedule(Init(capacity), calls);
  }
}
