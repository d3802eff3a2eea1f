/** The loader as a transition system: any number of request handlers, the Docker event loop and
    Docker itself, interleaved one atomic action at a time. A handler takes a slot from the bounded
    `limiter` channel, runs a container, stores it in the manager's map, waits for `complete` or a
    timer, reads the response, gives a slot back and deletes the map entry. */
module SlotProtocol {
  import opened Text
  import opened Status
  import opened Sandbox

  // ---- State

  /** Where a handler is, named after what it does next. */
  datatype Pc =
    | AwaitSlot                      // s.limiter <- request.ID
    | Preparing                      // prepare, ContainerCreate
    | Starting                       // ContainerStart
    | Storing                        // s.containers.Store
    | Waiting                        // select on complete and the timer
    | Woken                          // manager.GetResponse
    | Releasing(response: Response)  // uploads, then <-s.limiter
    | Deleting                       // s.containers.Delete
    | Done
    | RunFailed
    | TimedOut
    | Crashed

  /** A handler with the container object it created; `id` is "" until Docker gives one. */
  datatype Handler = Handler(request: string, test: Option<Test>, pc: Pc, id: string, container: ContainerState)

  /** Docker's side of a container: existing, removed, or removed with the destroy event sent. */
  datatype Phase = Live | Gone | Announced

  datatype DockerContainer = DockerContainer(owner: nat, phase: Phase)

  datatype Message = Message(id: string, action: string)

  /** The event goroutine between messages, holding a container it looked up, and inside
      `handleContainerRemoved`. */
  datatype Loop =
    | Idle
    | Dispatching(h: nat, action: string)
    | Recording(h: nat, file: Option<ExecutionResponse>)
    | Closing(h: nat)
    | Stopped
    | LoopCrashed

  datatype State = State(
    capacity: nat,
    limiter: seq<string>,
    containers: map<string, nat>,
    handlers: seq<Handler>,
    docker: map<string, DockerContainer>,
    events: seq<Message>,
    loop: Loop)

  function Init(capacity: nat): State {
    State(capacity, [], map[], [], map[], [], Idle)
  }

  // ---- Actions

  datatype Label =
    | Arrive(request: string, test: Option<Test>)
    | TakeSlot(h: nat)
    | PrepareFails(h: nat)           // also a failing ContainerCreate
    | Create(h: nat, id: string)
    | StartFails(h: nat)
    | Start(h: nat)
    | Store(h: nat)
    | Wake(h: nat)
    | TimeOut(h: nat)
    | ReadResponse(h: nat)
    | ReleaseSlot(h: nat)
    | Delete(h: nat)
    | Remove(id: string)
    | Announce(id: string)
    | Emit(id: string, action: string)
    | Lookup
    | Dispatch(file: Option<ExecutionResponse>)
    | RecordOutput
    | CloseComplete
    | Stop                           // the event loop sees the stop flag

  predicate At(s: State, h: nat, pc: Pc) {
    h < |s.handlers| && s.handlers[h].pc == pc
  }

  /** What Docker promises: ids are fresh and at least ten bytes long, and destroy is announced at
      most once, after the container is gone. Any other event may come at any time. */
  predicate Enabled(s: State, l: Label) {
    match l
    case Arrive(_, _) => true
    case TakeSlot(h) => At(s, h, AwaitSlot) && |s.limiter| < s.capacity
    case PrepareFails(h) => At(s, h, Preparing)
    case Create(h, id) => At(s, h, Preparing) && id !in s.docker && |id| >= 10
    case StartFails(h) => At(s, h, Starting)
    case Start(h) => At(s, h, Starting)
    case Store(h) => At(s, h, Storing)
    case Wake(h) => At(s, h, Waiting) && s.handlers[h].container.complete.Closed?
    case TimeOut(h) => At(s, h, Waiting)
    case ReadResponse(h) => At(s, h, Woken)
    case ReleaseSlot(h) => h < |s.handlers| && s.handlers[h].pc.Releasing? && s.limiter != []
    case Delete(h) => At(s, h, Deleting)
    case Remove(id) => id in s.docker && s.docker[id].phase.Live?
    case Announce(id) => id in s.docker && s.docker[id].phase.Gone?
    case Emit(id, action) => id in s.docker && action != "destroy"
    case Lookup => s.loop.Idle? && s.events != []
    case Dispatch(_) => s.loop.Dispatching? && s.loop.h < |s.handlers|
    case RecordOutput => s.loop.Recording? && s.loop.h < |s.handlers|
    case CloseComplete => s.loop.Closing? && s.loop.h < |s.handlers|
    case Stop => s.loop.Idle?
  }

  function Goto(s: State, h: nat, pc: Pc): State
    requires h < |s.handlers|
  {
    s.(handlers := s.handlers[h := s.handlers[h].(pc := pc)])
  }

  function SetContainer(s: State, h: nat, c: ContainerState): State
    requires h < |s.handlers|
  {
    s.(handlers := s.handlers[h := s.handlers[h].(container := c)])
  }

  /** An error of `Run`: the container is cleaned up and the slot stays taken. */
  function FailRun(s: State, h: nat): State
    requires h < |s.handlers|
  {
    match Cleanup(s.handlers[h].container)
    case Panic => Goto(s, h, Crashed)
    case Ok(c) => Goto(SetContainer(s, h, c), h, RunFailed)
  }

  /** `manager.GetResponse` and the dereference of its result: nil when the id is not stored. */
  function ReadStored(s: State, h: nat): State
    requires h < |s.handlers|
  {
    var id := s.handlers[h].id;
    if id !in s.containers || s.containers[id] >= |s.handlers| then Goto(s, h, Crashed) else
      var k := s.containers[id];
      match GetResponse(s.handlers[k].container, s.handlers[k].test)
      case Panic => Goto(s, h, Crashed)
      case Ok(r) => Goto(SetContainer(s, k, AfterGetResponse(s.handlers[k].container)), h, Releasing(r))
  }

  function HandleMessage(s: State, m: Message): State {
    if m.id in s.containers then s.(loop := Dispatching(s.containers[m.id], m.action)) else s
  }

  function DispatchEvent(s: State, h: nat, action: string, file: Option<ExecutionResponse>): State
    requires h < |s.handlers|
  {
    var c := s.handlers[h].container;
    if |s.handlers[h].id| < 10 then s.(loop := LoopCrashed)
    else if action == "destroy" then SetContainer(s, h, ReadOutput(c, file)).(loop := Recording(h, file))
    else SetContainer(s, h, SetStatus(c, action)).(loop := Idle)
  }

  function CloseOf(s: State, h: nat): State
    requires h < |s.handlers|
  {
    match Cleanup(s.handlers[h].container)
    case Panic => s.(loop := LoopCrashed)
    case Ok(c) => SetContainer(s, h, c).(loop := Idle)
  }

  function Step(s: State, l: Label): State
    requires Enabled(s, l)
  {
    match l
    case Arrive(request, test) => s.(handlers := s.handlers + [Handler(request, test, AwaitSlot, "", FRESH)])
    case TakeSlot(h) => Goto(s, h, Preparing).(limiter := s.limiter + [s.handlers[h].request])
    case PrepareFails(h) => FailRun(s, h)
    case Create(h, id) =>
      s.(docker := s.docker[id := DockerContainer(h, Live)],
         handlers := s.handlers[h := s.handlers[h].(pc := Starting, id := id)])
    case StartFails(h) => FailRun(s, h)
    case Start(h) => Goto(s, h, Storing)
    case Store(h) => Goto(s, h, Waiting).(containers := s.containers[s.handlers[h].id := h])
    case Wake(h) => Goto(s, h, Woken)
    case TimeOut(h) => Goto(s, h, TimedOut)
    case ReadResponse(h) => ReadStored(s, h)
    case ReleaseSlot(h) => Goto(s, h, Deleting).(limiter := s.limiter[1..])
    case Delete(h) => Goto(s, h, Done).(containers := s.containers - {s.handlers[h].id})
    case Remove(id) => s.(docker := s.docker[id := s.docker[id].(phase := Gone)])
    case Announce(id) =>
      s.(docker := s.docker[id := s.docker[id].(phase := Announced)],
         events := s.events + [Message(id, "destroy")])
    case Emit(id, action) => s.(events := s.events + [Message(id, action)])
    case Lookup => HandleMessage(s.(events := s.events[1..]), s.events[0])
    case Dispatch(file) => DispatchEvent(s, s.loop.h, s.loop.action, file)
    case RecordOutput =>
      SetContainer(s, s.loop.h, Record(s.handlers[s.loop.h].container, s.loop.file)).(loop := Closing(s.loop.h))
    case CloseComplete => CloseOf(s, s.loop.h)
    case Stop => s.(loop := Stopped)
  }

  /** The state after a schedule, if every action of it was enabled in its turn. */
  function Exec(s: State, schedule: seq<Label>): Option<State>
    decreases |schedule|
  {
    if schedule == [] then Some(s)
    else if Enabled(s, schedule[0]) then Exec(Step(s, schedule[0]), schedule[1..])
    else None
  }

  ghost predicate Reaches(s: State, schedule: seq<Label>, t: State) {
    Exec(s, schedule) == Some(t)
  }

  // ---- Who holds a slot, who is stored

  predicate InFlight(h: Handler) {
    match h.pc
    case Preparing => true
    case Starting => true
    case Storing => true
    case Waiting => true
    case Woken => true
    case Releasing(_) => true
    case _ => false
  }

  /** A slot nobody will give back. */
  predicate LostSlot(h: Handler) {
    h.pc.RunFailed? || h.pc.TimedOut?
  }

  predicate HoldsSlot(h: Handler) {
    InFlight(h) || LostSlot(h)
  }

  predicate Contends(h: Handler) {
    h.pc.AwaitSlot? || InFlight(h)
  }

  predicate Stored(h: Handler) {
    h.pc.Waiting? || h.pc.Woken? || h.pc.Releasing? || h.pc.Deleting? || h.pc.TimedOut?
  }

  /** Past the wait because `complete` was closed. */
  predicate WasWoken(h: Handler) {
    h.pc.Woken? || h.pc.Releasing? || h.pc.Deleting? || h.pc.Done?
  }

  function Count(hs: seq<Handler>, p: Handler -> bool): nat {
    if hs == [] then 0 else (if p(hs[0]) then 1 else 0) + Count(hs[1..], p)
  }

  /** How many destroy messages for `id` are still in the event stream. */
  function Destroys(events: seq<Message>, id: string): nat {
    if events == [] then 0
    else (if events[0] == Message(id, "destroy") then 1 else 0) + Destroys(events[1..], id)
  }

  /** 1 while the event loop is handling a destroy for handler `h`. */
  function LoopDestroys(loop: Loop, h: nat): nat {
    match loop
    case Dispatching(k, action) => if k == h && action == "destroy" then 1 else 0
    case Recording(k, _) => if k == h then 1 else 0
    case Closing(k) => if k == h then 1 else 0
    case _ => 0
  }

  function EventCloses(h: Handler): nat {
    if h.container.complete.Closed? && !h.pc.RunFailed? then 1 else 0
  }

  // ---- The invariant

  ghost predicate SlotsInv(s: State) {
    |s.limiter| == Count(s.handlers, HoldsSlot) <= s.capacity
  }

  ghost predicate MapInv(s: State) {
    && (forall id :: id in s.containers ==>
          s.containers[id] < |s.handlers| && s.handlers[s.containers[id]].id == id && Stored(s.handlers[s.containers[id]]))
    && (forall h :: 0 <= h < |s.handlers| && Stored(s.handlers[h]) ==>
          s.handlers[h].id in s.containers && s.containers[s.handlers[h].id] == h)
  }

  /** A handler with its container's place in Docker. */
  ghost predicate HandlerInv(s: State, h: nat)
    requires h < |s.handlers|
  {
    var x := s.handlers[h];
    && (x.pc.AwaitSlot? || x.pc.Preparing? ==> x.id == "")
    && (x.id == "" ==> x.pc.AwaitSlot? || x.pc.Preparing? || x.pc.RunFailed?)
    && (x.id != "" ==> x.id in s.docker && s.docker[x.id].owner == h && |x.id| >= 10)
    && (x.pc.AwaitSlot? || x.pc.Preparing? || x.pc.Starting? || x.pc.Storing? ==> x.container == FRESH)
    && (WasWoken(x) ==> x.container.complete.Closed?)
    && !x.pc.Crashed?
  }

  ghost predicate DockerInv(s: State) {
    && (forall h :: 0 <= h < |s.handlers| ==> HandlerInv(s, h))
    && (forall id :: id in s.docker ==>
          s.docker[id].owner < |s.handlers| && s.handlers[s.docker[id].owner].id == id && id != "")
  }

  ghost predicate LoopInv(s: State) {
    && !s.loop.LoopCrashed?
    && (s.loop.Dispatching? || s.loop.Recording? || s.loop.Closing? ==>
          s.loop.h < |s.handlers| && (Stored(s.handlers[s.loop.h]) || s.handlers[s.loop.h].pc.Done?))
  }

  /** The one destroy of a container is in the stream, in the event loop or has closed `complete`,
      or was dropped; before it is announced it is nowhere. */
  ghost predicate DestroyOnce(s: State, id: string)
    requires id in s.docker
  {
    s.docker[id].owner < |s.handlers| &&
    Destroys(s.events, id) + LoopDestroys(s.loop, s.docker[id].owner) + EventCloses(s.handlers[s.docker[id].owner])
      <= if s.docker[id].phase.Announced? then 1 else 0
  }

  ghost predicate DestroyInv(s: State) {
    && (forall id :: id in s.docker ==> DestroyOnce(s, id))
    && (forall i :: 0 <= i < |s.events| ==> s.events[i].id in s.docker)
  }

  /** A closed container that says Finished has its response; an open one says so only while the
      event loop is recording that response. */
  ghost predicate SettledIn(s: State, h: nat)
    requires h < |s.handlers|
  {
    var c := s.handlers[h].container;
    && (c.complete.Closed? ==> Settled(c))
    && (c.complete.Open? && c.status == FINISHED ==>
          || (s.loop.Recording? && s.loop.h == h && s.loop.file.Some? && s.loop.file.value.status == FINISHED)
          || (s.loop.Closing? && s.loop.h == h && Settled(c)))
  }

  ghost predicate ResponseInv(s: State) {
    forall h :: 0 <= h < |s.handlers| ==> SettledIn(s, h)
  }

  ghost predicate Inv(s: State) {
    SlotsInv(s) && MapInv(s) && DockerInv(s) && LoopInv(s) && DestroyInv(s) && ResponseInv(s)
  }

  // ---- Every action keeps it

  lemma {:induction false} CountUpdate(hs: seq<Handler>, i: nat, x: Handler, p: Handler -> bool)
    requires i < |hs|
    ensures Count(hs[i := x], p) == Count(hs, p) - (if p(hs[i]) then 1 else 0) + (if p(x) then 1 else 0)
  {
    if i == 0 {
      assert hs[i := x][1..] == hs[1..];
    } else {
      CountUpdate(hs[1..], i - 1, x, p);
      assert hs[i := x][1..] == hs[1..][i - 1 := x];
    }
  }

  lemma {:induction false} CountAppend(hs: seq<Handler>, x: Handler, p: Handler -> bool)
    ensures Count(hs + [x], p) == Count(hs, p) + (if p(x) then 1 else 0)
  {
    if hs == [] {
      assert hs + [x] == [x] && [x][1..] == [];
    } else {
      CountAppend(hs[1..], x, p);
      assert (hs + [x])[1..] == hs[1..] + [x];
    }
  }

  lemma {:induction false} DestroysAppend(events: seq<Message>, m: Message, id: string)
    ensures Destroys(events + [m], id) == Destroys(events, id) + (if m == Message(id, "destroy") then 1 else 0)
  {
    if events == [] {
      assert events + [m] == [m] && [m][1..] == [];
    } else {
      DestroysAppend(events[1..], m, id);
      assert (events + [m])[1..] == events[1..] + [m];
    }
  }

  /** An id Docker never gave has no destroy in the stream. */
  lemma {:induction false} NoDestroys(events: seq<Message>, id: string)
    requires forall i :: 0 <= i < |events| ==> events[i].id != id
    ensures Destroys(events, id) == 0
  {
    if events != [] {
      NoDestroys(events[1..], id);
    }
  }

  /** None of the panics the actions allow for can happen: the failing `Run` closes a fresh
      channel, a woken handler finds its own container with a response it may read, and the event
      loop closes an open channel. */
  lemma NoPanic(s: State, l: Label)
    requires Inv(s) && Enabled(s, l)
    ensures (l.PrepareFails? || l.StartFails?) ==> Cleanup(s.handlers[l.h].container).Ok?
    ensures l.ReadResponse? ==>
      && s.handlers[l.h].id in s.containers && s.containers[s.handlers[l.h].id] == l.h
      && GetResponse(s.handlers[l.h].container, s.handlers[l.h].test).Ok?
    ensures l.Dispatch? ==> |s.handlers[s.loop.h].id| >= 10
    ensures l.CloseComplete? ==> Cleanup(s.handlers[s.loop.h].container).Ok?
  {
    match l {
      case PrepareFails(h) => assert HandlerInv(s, h);
      case StartFails(h) => assert HandlerInv(s, h);
      case ReadResponse(h) => assert HandlerInv(s, h) && SettledIn(s, h);
      case Dispatch(_) => assert HandlerInv(s, s.loop.h);
      case CloseComplete =>
        assert HandlerInv(s, s.loop.h);
        assert DestroyOnce(s, s.handlers[s.loop.h].id);
      case _ =>
    }
  }

  function LoopHandler(loop: Loop): Option<nat> {
    if loop.Dispatching? || loop.Recording? || loop.Closing? then Some(loop.h) else None
  }

  /** The event loop may hold this handler's container: it is stored, or was until lately. */
  predicate MayHaveEvents(h: Handler) {
    Stored(h) || h.pc.Done?
  }

  /** Handler `h` alone changes, its map entry comes and goes with it, the event loop stays put or
      moves on from `h`, and what the invariant says about `h` still holds. */
  ghost predicate LegalChange(s: State, t: State, h: nat) {
    && h < |s.handlers| == |t.handlers|
    && t == State(s.capacity, t.limiter, t.containers, s.handlers[h := t.handlers[h]], s.docker, s.events, t.loop)
    && var x, y := s.handlers[h], t.handlers[h];
    && y.id == x.id
    && |t.limiter| == |s.limiter| - (if HoldsSlot(x) then 1 else 0) + (if HoldsSlot(y) then 1 else 0) <= s.capacity
    && (Stored(x) == Stored(y) ==> t.containers == s.containers)
    && (!Stored(x) && Stored(y) ==> x.id != "" && t.containers == s.containers[x.id := h])
    && (Stored(x) && !Stored(y) ==> t.containers == s.containers - {x.id})
    && HandlerInv(t, h)
    && (MayHaveEvents(x) ==> MayHaveEvents(y))
    && (t.loop == s.loop ||
        (LoopHandler(s.loop) == Some(h) && (t.loop.Idle? || (LoopHandler(t.loop) == Some(h) && !t.loop.Dispatching?))))
    && LoopDestroys(t.loop, h) + EventCloses(y) <= LoopDestroys(s.loop, h) + EventCloses(x)
    && SettledIn(t, h)
  }

  lemma ChangeKeepsSlots(s: State, t: State, h: nat)
    requires SlotsInv(s) && LegalChange(s, t, h)
    ensures SlotsInv(t)
  {
    CountUpdate(s.handlers, h, t.handlers[h], HoldsSlot);
  }

  lemma ChangeKeepsMap(s: State, t: State, h: nat)
    requires MapInv(s) && DockerInv(s) && LegalChange(s, t, h)
    ensures MapInv(t)
  {
    assert HandlerInv(s, h);
    forall id | id in t.containers
      ensures t.containers[id] < |t.handlers| && t.handlers[t.containers[id]].id == id && Stored(t.handlers[t.containers[id]])
    {
    }
    forall k | 0 <= k < |t.handlers| && Stored(t.handlers[k])
      ensures t.handlers[k].id in t.containers && t.containers[t.handlers[k].id] == k
    {
      assert HandlerInv(s, k);
    }
  }

  lemma ChangeKeepsDocker(s: State, t: State, h: nat)
    requires DockerInv(s) && LegalChange(s, t, h)
    ensures DockerInv(t)
  {
    forall k | 0 <= k < |t.handlers| ensures HandlerInv(t, k) {
      assert HandlerInv(s, k);
    }
  }

  lemma ChangeKeepsDestroys(s: State, t: State, h: nat)
    requires DestroyInv(s) && DockerInv(s) && LegalChange(s, t, h)
    ensures DestroyInv(t)
  {
    forall id | id in t.docker ensures DestroyOnce(t, id) {
      assert DestroyOnce(s, id);
    }
  }

  lemma ChangeKeepsResponses(s: State, t: State, h: nat)
    requires ResponseInv(s) && LegalChange(s, t, h)
    ensures ResponseInv(t)
  {
    forall k | 0 <= k < |t.handlers| ensures SettledIn(t, k) {
      assert SettledIn(s, k);
    }
  }

  lemma ChangeKeepsInv(s: State, t: State, h: nat)
    requires Inv(s) && LegalChange(s, t, h)
    ensures Inv(t)
  {
    ChangeKeepsSlots(s, t, h);
    ChangeKeepsMap(s, t, h);
    ChangeKeepsDocker(s, t, h);
    ChangeKeepsDestroys(s, t, h);
    ChangeKeepsResponses(s, t, h);
  }

  /** What the invariant says about one handler and the limiter. */
  ghost predicate LocalInv(s: State, h: nat) {
    && h < |s.handlers| && HandlerInv(s, h) && SettledIn(s, h)
    && |s.limiter| <= s.capacity && (HoldsSlot(s.handlers[h]) ==> s.limiter != [])
  }

  lemma {:induction false} HolderMeansToken(hs: seq<Handler>, h: nat, p: Handler -> bool)
    requires h < |hs| && p(hs[h])
    ensures Count(hs, p) >= 1
  {
    if h > 0 {
      HolderMeansToken(hs[1..], h - 1, p);
    }
  }

  lemma Localise(s: State, h: nat)
    requires Inv(s) && h < |s.handlers|
    ensures LocalInv(s, h)
  {
    if HoldsSlot(s.handlers[h]) {
      HolderMeansToken(s.handlers, h, HoldsSlot);
    }
  }

  lemma RunActionIsLegal(s: State, l: Label)
    requires Enabled(s, l) && (l.TakeSlot? || l.Start? || l.Store? || l.PrepareFails? || l.StartFails?) && LocalInv(s, l.h)
    ensures LegalChange(s, Step(s, l), l.h)
  {
  }

  lemma WaitActionIsLegal(s: State, l: Label)
    requires Enabled(s, l) && (l.Wake? || l.TimeOut? || l.ReleaseSlot? || l.Delete?) && LocalInv(s, l.h)
    ensures LegalChange(s, Step(s, l), l.h)
  {
  }

  lemma ReadActionIsLegal(s: State, h: nat)
    requires Enabled(s, ReadResponse(h)) && LocalInv(s, h)
    requires s.handlers[h].id in s.containers && s.containers[s.handlers[h].id] == h
    ensures LegalChange(s, Step(s, ReadResponse(h)), h)
  {
    var t := Step(s, ReadResponse(h));
    assert t.handlers == s.handlers[h := t.handlers[h]];
  }

  lemma LoopActionIsLegal(s: State, l: Label)
    requires Enabled(s, l) && (l.Dispatch? || l.RecordOutput? || l.CloseComplete?)
    requires LocalInv(s, s.loop.h) && MayHaveEvents(s.handlers[s.loop.h])
    requires LoopDestroys(s.loop, s.loop.h) + EventCloses(s.handlers[s.loop.h]) <= 1
    ensures LegalChange(s, Step(s, l), s.loop.h)
  {
  }

  lemma HandlerActionKeepsInv(s: State, l: Label)
    requires Inv(s) && Enabled(s, l)
    requires l.TakeSlot? || l.Start? || l.Store? || l.PrepareFails? || l.StartFails? || l.Wake? || l.TimeOut?
      || l.ReleaseSlot? || l.Delete? || l.ReadResponse?
    ensures Inv(Step(s, l))
  {
    Localise(s, l.h);
    if l.Wake? || l.TimeOut? || l.ReleaseSlot? || l.Delete? {
      WaitActionIsLegal(s, l);
    } else if l.ReadResponse? {
      ReadActionIsLegal(s, l.h);
    } else {
      RunActionIsLegal(s, l);
    }
    ChangeKeepsInv(s, Step(s, l), l.h);
  }

  lemma LoopActionKeepsInv(s: State, l: Label)
    requires Inv(s) && Enabled(s, l) && (l.Dispatch? || l.RecordOutput? || l.CloseComplete?)
    ensures Inv(Step(s, l))
  {
    Localise(s, s.loop.h);
    assert DestroyOnce(s, s.handlers[s.loop.h].id);
    LoopActionIsLegal(s, l);
    ChangeKeepsInv(s, Step(s, l), s.loop.h);
  }

  lemma KeepsArrive(s: State, t: State, x: Handler)
    requires Inv(s) && x.pc == AwaitSlot && x.id == "" && x.container == FRESH
    requires t == s.(handlers := s.handlers + [x])
    ensures Inv(t)
  {
    CountAppend(s.handlers, x, HoldsSlot);
    forall k | 0 <= k < |t.handlers| ensures HandlerInv(t, k) && SettledIn(t, k) {
      if k < |s.handlers| {
        assert HandlerInv(s, k) && SettledIn(s, k);
      }
    }
    forall id | id in t.docker ensures DestroyOnce(t, id) {
      assert DestroyOnce(s, id);
    }
  }

  ghost predicate Creates(s: State, t: State, h: nat, id: string) {
    && At(s, h, Preparing) && id !in s.docker && |id| >= 10
    && t == s.(docker := s.docker[id := DockerContainer(h, Live)],
               handlers := s.handlers[h := s.handlers[h].(pc := Starting, id := id)])
  }

  lemma CreateKeepsDestroys(s: State, t: State, h: nat, id: string)
    requires DestroyInv(s) && DockerInv(s) && LoopInv(s) && Creates(s, t, h, id)
    ensures DestroyInv(t)
  {
    assert HandlerInv(s, h);
    forall other | other in t.docker ensures DestroyOnce(t, other) {
      if other == id {
        NoDestroys(s.events, id);
      } else {
        assert DestroyOnce(s, other);
      }
    }
  }

  lemma CreateKeepsHandlers(s: State, t: State, h: nat, id: string)
    requires DockerInv(s) && ResponseInv(s) && Creates(s, t, h, id)
    ensures DockerInv(t) && ResponseInv(t)
  {
    assert HandlerInv(s, h);
    forall k | 0 <= k < |t.handlers| ensures HandlerInv(t, k) && SettledIn(t, k) {
      assert HandlerInv(s, k) && SettledIn(s, k);
    }
  }

  lemma CreateKeepsMap(s: State, t: State, h: nat, id: string)
    requires SlotsInv(s) && MapInv(s) && LoopInv(s) && Creates(s, t, h, id)
    ensures SlotsInv(t) && MapInv(t) && LoopInv(t)
  {
    CountUpdate(s.handlers, h, t.handlers[h], HoldsSlot);
  }

  lemma KeepsCreate(s: State, t: State, h: nat, id: string)
    requires Inv(s) && Creates(s, t, h, id)
    ensures Inv(t)
  {
    CreateKeepsMap(s, t, h, id);
    CreateKeepsDestroys(s, t, h, id);
    CreateKeepsHandlers(s, t, h, id);
  }

  lemma KeepsPhase(s: State, t: State, id: string)
    requires Inv(s) && id in s.docker && !s.docker[id].phase.Announced?
    requires t == s.(docker := t.docker, events := t.events)
    requires
      || (t.docker == s.docker[id := s.docker[id].(phase := Gone)] && t.events == s.events)
      || (t.docker == s.docker[id := s.docker[id].(phase := Announced)] && t.events == s.events + [Message(id, "destroy")])
    ensures Inv(t)
  {
    forall k | 0 <= k < |t.handlers| ensures HandlerInv(t, k) && SettledIn(t, k) {
      assert HandlerInv(s, k) && SettledIn(s, k);
    }
    forall other | other in t.docker ensures DestroyOnce(t, other) {
      assert DestroyOnce(s, other);
      DestroysAppend(s.events, Message(id, "destroy"), other);
    }
  }

  lemma KeepsEmit(s: State, t: State, m: Message)
    requires Inv(s) && m.id in s.docker && m.action != "destroy" && t == s.(events := s.events + [m])
    ensures Inv(t)
  {
    forall k | 0 <= k < |t.handlers| ensures HandlerInv(t, k) && SettledIn(t, k) {
      assert HandlerInv(s, k) && SettledIn(s, k);
    }
    forall id | id in t.docker ensures DestroyOnce(t, id) {
      assert DestroyOnce(s, id);
      DestroysAppend(s.events, m, id);
    }
  }

  /** A destroy moves from the stream to the event loop, or is dropped. */
  lemma LookupKeepsDestroys(s: State, t: State, id: string)
    requires Inv(s) && s.loop.Idle? && s.events != [] && id in s.docker
    requires t == HandleMessage(s.(events := s.events[1..]), s.events[0])
    ensures DestroyOnce(t, id)
  {
    assert DestroyOnce(s, id);
    if s.events[0].id in s.containers {
      assert HandlerInv(s, s.containers[s.events[0].id]);
    }
  }

  lemma KeepsLookup(s: State, t: State)
    requires Inv(s) && s.loop.Idle? && s.events != []
    requires t == HandleMessage(s.(events := s.events[1..]), s.events[0])
    ensures Inv(t)
  {
    forall k | 0 <= k < |t.handlers| ensures HandlerInv(t, k) && SettledIn(t, k) {
      assert HandlerInv(s, k) && SettledIn(s, k);
    }
    forall id | id in t.docker ensures DestroyOnce(t, id) {
      LookupKeepsDestroys(s, t, id);
    }
  }

  lemma KeepsStop(s: State)
    requires Inv(s) && s.loop.Idle?
    ensures Inv(s.(loop := Stopped))
  {
    var t := s.(loop := Stopped);
    forall k | 0 <= k < |t.handlers| ensures HandlerInv(t, k) && SettledIn(t, k) {
      assert HandlerInv(s, k) && SettledIn(s, k);
    }
    forall id | id in t.docker ensures DestroyOnce(t, id) {
      assert DestroyOnce(s, id);
    }
  }

  lemma DockerActionKeepsInv(s: State, l: Label)
    requires Inv(s) && Enabled(s, l) && (l.Remove? || l.Announce? || l.Emit?)
    ensures Inv(Step(s, l))
  {
    if l.Emit? {
      KeepsEmit(s, Step(s, l), Message(l.id, l.action));
    } else {
      KeepsPhase(s, Step(s, l), l.id);
    }
  }

  /** Every action of every process keeps the invariant. */
  lemma StepKeepsInv(s: State, l: Label)
    requires Inv(s) && Enabled(s, l)
    ensures Inv(Step(s, l))
  {
    var t := Step(s, l);
    if l.Arrive? {
      KeepsArrive(s, t, Handler(l.request, l.test, AwaitSlot, "", FRESH));
    } else if l.Create? {
      KeepsCreate(s, t, l.h, l.id);
    } else if l.Remove? || l.Announce? || l.Emit? {
      DockerActionKeepsInv(s, l);
    } else if l.Lookup? {
      KeepsLookup(s, t);
    } else if l.Stop? {
      KeepsStop(s);
    } else if l.Dispatch? || l.RecordOutput? || l.CloseComplete? {
      LoopActionKeepsInv(s, l);
    } else {
      HandlerActionKeepsInv(s, l);
    }
  }

  lemma {:induction false} RunKeepsInv(s: State, schedule: seq<Label>, t: State)
    requires Inv(s) && Reaches(s, schedule, t)
    ensures Inv(t)
    decreases |schedule|
  {
    if schedule != [] {
      StepKeepsInv(s, schedule[0]);
      RunKeepsInv(Step(s, schedule[0]), schedule[1..], t);
    }
  }

  lemma ReachableInv(capacity: nat, schedule: seq<Label>, s: State)
    requires Reaches(Init(capacity), schedule, s)
    ensures Inv(s)
  {
    RunKeepsInv(Init(capacity), schedule, s);
  }
}
