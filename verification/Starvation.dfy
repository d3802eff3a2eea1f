/** When a waiting handler can still be woken and when a slot can still be had: exactly, in every
    reachable state, over all continuations. */
module Starvation {
  import opened Text
  import opened Status
  import opened Sandbox
  import opened SlotProtocol
  import opened SlotTheorems
  import opened SlotRuns

  // ---- Who will never be woken

  /** Between asking Docker for the container and the end of the wait. */
  predicate HasContainer(h: Handler) {
    h.pc.Starting? || h.pc.Storing? || h.pc.Waiting?
  }

  /** The destroy of handler `h`'s container was consumed without closing `complete`. */
  ghost predicate DestroyLost(s: State, h: nat) {
    && h < |s.handlers|
    && var x := s.handlers[h];
    && HasContainer(x) && x.container.complete.Open?
    && x.id in s.docker && s.docker[x.id].phase.Announced?
    && Destroys(s.events, x.id) == 0 && LoopDestroys(s.loop, h) == 0
  }

  /** The event loop has stopped before it closed `complete`. */
  ghost predicate LoopGone(s: State, h: nat) {
    && h < |s.handlers| && s.loop.Stopped?
    && (s.handlers[h].pc.Preparing? || HasContainer(s.handlers[h]))
    && s.handlers[h].container.complete.Open?
  }

  ghost predicate NeverWoken(s: State, h: nat) {
    DestroyLost(s, h) || LoopGone(s, h)
  }

  /** A handler whose slot does not come back. */
  ghost predicate Doomed(s: State, h: nat) {
    h < |s.handlers| && (LostSlot(s.handlers[h]) || NeverWoken(s, h))
  }

  ghost function DoomedHandlers(s: State): set<nat> {
    set h: nat | h < |s.handlers| && Doomed(s, h)
  }

  // ---- Doom is for ever

  /** Nothing that concerns handler `h` is different in `t`. */
  predicate SameFor(s: State, t: State, h: nat) {
    && h < |s.handlers| && h < |t.handlers| && t.handlers[h] == s.handlers[h]
    && t.loop == s.loop && t.events == s.events
    && (s.handlers[h].id in s.docker ==> s.handlers[h].id in t.docker && t.docker[s.handlers[h].id] == s.docker[s.handlers[h].id])
  }

  predicate IsRunAction(l: Label) {
    l.TakeSlot? || l.PrepareFails? || l.Create? || l.StartFails? || l.Start? || l.Store?
  }

  predicate IsWaitAction(l: Label) {
    l.Wake? || l.TimeOut? || l.ReadResponse? || l.ReleaseSlot? || l.Delete?
  }

  lemma OthersRun(s: State, l: Label, h: nat)
    requires Enabled(s, l) && IsRunAction(l) && l.h != h && h < |s.handlers|
    ensures SameFor(s, Step(s, l), h)
  {
  }

  lemma OthersWait(s: State, l: Label, h: nat)
    requires Enabled(s, l) && IsWaitAction(l) && l.h != h && h < |s.handlers|
    requires l.ReadResponse? ==> s.handlers[l.h].id in s.containers && s.containers[s.handlers[l.h].id] == l.h
    ensures SameFor(s, Step(s, l), h)
  {
  }

  /** What a handler that is never woken can do itself: fail, go on towards the wait, or time out. */
  lemma DoomedRuns(s: State, l: Label, h: nat)
    requires Enabled(s, l) && IsRunAction(l) && l.h == h && NeverWoken(s, h)
    ensures Doomed(Step(s, l), h)
  {
  }

  lemma DoomedWaits(s: State, l: Label, h: nat)
    requires Enabled(s, l) && IsWaitAction(l) && l.h == h && NeverWoken(s, h)
    ensures Doomed(Step(s, l), h)
  {
  }

  lemma DockerLeavesDoomed(s: State, l: Label, h: nat)
    requires Enabled(s, l) && (l.Remove? || l.Announce? || l.Emit? || l.Arrive?) && NeverWoken(s, h)
    ensures NeverWoken(Step(s, l), h)
  {
    if l.Announce? || l.Emit? {
      DestroysAppend(s.events, Message(l.id, if l.Emit? then l.action else "destroy"), s.handlers[h].id);
    }
  }

  lemma LoopLeavesDoomed(s: State, l: Label, h: nat)
    requires Enabled(s, l) && IsLoopAction(l) && NeverWoken(s, h)
    requires l.Lookup? && s.events[0].id in s.containers && s.containers[s.events[0].id] == h ==>
      s.handlers[h].id == s.events[0].id
    ensures NeverWoken(Step(s, l), h)
  {
  }

  /** No action of anyone saves a doomed handler. */
  lemma StepKeepsDoom(s: State, l: Label, h: nat)
    requires Inv(s) && Enabled(s, l) && Doomed(s, h)
    ensures Doomed(Step(s, l), h)
  {
    if LostSlot(s.handlers[h]) {
      StepEvolves(s, l, h);
    } else if IsLoopAction(l) {
      LoopLeavesDoomed(s, l, h);
    } else if IsRunAction(l) {
      if l.h == h { DoomedRuns(s, l, h); } else { OthersRun(s, l, h); }
    } else if IsWaitAction(l) {
      NoPanic(s, l);
      if l.h == h { DoomedWaits(s, l, h); } else { OthersWait(s, l, h); }
    } else {
      DockerLeavesDoomed(s, l, h);
    }
  }

  lemma {:induction false} RunKeepsDoom(s: State, schedule: seq<Label>, t: State, h: nat)
    requires Inv(s) && Reaches(s, schedule, t) && Doomed(s, h)
    ensures Doomed(t, h)
    decreases |schedule|
  {
    if schedule != [] {
      StepKeepsDoom(s, schedule[0], h);
      StepKeepsInv(s, schedule[0]);
      RunKeepsDoom(Step(s, schedule[0]), schedule[1..], t, h);
    }
  }

  // ---- Continuations that take no slot

  ghost predicate Leads(s: State, c: seq<Label>, t: State) {
    Reaches(s, c, t) && Inv(t) && forall i :: 0 <= i < |c| ==> !c[i].TakeSlot?
  }

  lemma LeadsNowhere(s: State)
    requires Inv(s)
    ensures Leads(s, [], s)
  {
  }

  lemma LeadsOn(s: State, c: seq<Label>, m: State, d: seq<Label>, t: State)
    requires Leads(s, c, m) && Leads(m, d, t)
    ensures Leads(s, c + d, t)
  {
    RunsCompose(s, c, m, d);
  }

  lemma LeadsBy(s: State, l: Label)
    requires Inv(s) && Enabled(s, l) && !l.TakeSlot?
    ensures Leads(s, [l], Step(s, l))
  {
    OneStep(s, l);
    StepKeepsInv(s, l);
  }

  /** Only taking a slot moves a handler that waits for one. */
  lemma StillAwaiting(s: State, l: Label, h: nat)
    requires Enabled(s, l) && At(s, h, AwaitSlot) && l != TakeSlot(h)
    requires l.ReadResponse? ==> s.handlers[l.h].id in s.containers && s.containers[s.handlers[l.h].id] == l.h
    ensures At(Step(s, l), h, AwaitSlot)
  {
    if IsRunAction(l) {
      if l.h != h { OthersRun(s, l, h); }
    } else if IsWaitAction(l) {
      if l.h != h { OthersWait(s, l, h); }
    }
  }

  lemma {:induction false} AwaiterKept(s: State, c: seq<Label>, t: State, h: nat)
    requires Inv(s) && Leads(s, c, t) && At(s, h, AwaitSlot)
    ensures At(t, h, AwaitSlot)
    decreases |c|
  {
    if c != [] {
      NoPanic(s, c[0]);
      StillAwaiting(s, c[0], h);
      StepKeepsInv(s, c[0]);
      AwaiterKept(Step(s, c[0]), c[1..], t, h);
    }
  }

  // ---- The event loop gets to the destroy

  /** What the event loop's own actions leave alone, seen from a waiting handler. */
  predicate LoopMoved(s: State, t: State, k: nat) {
    && At(s, k, Waiting) && At(t, k, Waiting) && t.handlers[k].id == s.handlers[k].id
    && t.docker == s.docker && t.events == s.events && !t.loop.Stopped?
    && IsClosed(t, k) + LoopDestroys(t.loop, k) == IsClosed(s, k) + LoopDestroys(s.loop, k)
  }

  function LoopRank(loop: Loop): nat {
    match loop
    case Dispatching(_, _) => 3
    case Recording(_, _) => 2
    case Closing(_) => 1
    case _ => 0
  }

  function NextLoopAction(loop: Loop): Label {
    match loop
    case Dispatching(_, _) => Dispatch(None)
    case Recording(_, _) => RecordOutput
    case _ => CloseComplete
  }

  lemma LoopActs(s: State, k: nat)
    requires LoopRank(s.loop) > 0 && s.loop.h < |s.handlers| && At(s, k, Waiting)
    requires |s.handlers[s.loop.h].id| >= 10
    requires s.loop.Closing? ==> s.handlers[s.loop.h].container.complete.Open?
    ensures Enabled(s, NextLoopAction(s.loop))
    ensures LoopMoved(s, Step(s, NextLoopAction(s.loop)), k)
    ensures LoopRank(Step(s, NextLoopAction(s.loop)).loop) < LoopRank(s.loop)
  {
  }

  lemma {:induction false} FinishLoop(s: State, k: nat) returns (c: seq<Label>, t: State)
    requires Inv(s) && At(s, k, Waiting) && !s.loop.Stopped?
    ensures Leads(s, c, t) && LoopMoved(s, t, k) && t.loop.Idle?
    decreases LoopRank(s.loop)
  {
    if s.loop.Idle? {
      LeadsNowhere(s);
      c, t := [], s;
    } else {
      var l := NextLoopAction(s.loop);
      assert HandlerInv(s, s.loop.h);
      if s.loop.Closing? { NoPanic(s, CloseComplete); }
      LoopActs(s, k);
      LeadsBy(s, l);
      c, t := FinishLoop(Step(s, l), k);
      LeadsOn(s, [l], Step(s, l), c, t);
      c := [l] + c;
    }
  }

  /** Looking at the next message brings the destroy nearer, or into the event loop. */
  lemma LookNext(s: State, k: nat)
    requires Inv(s) && At(s, k, Waiting) && s.loop.Idle? && s.events != []
    ensures Enabled(s, Lookup)
    ensures var t := Step(s, Lookup);
      && At(t, k, Waiting) && !t.loop.Stopped? && t.handlers == s.handlers && t.docker == s.docker
      && t.events == s.events[1..]
      && Destroys(t.events, s.handlers[k].id) + LoopDestroys(t.loop, k) >= Destroys(s.events, s.handlers[k].id)
  {
    assert HandlerInv(s, k);
  }

  lemma {:induction false} DrainToClose(s: State, k: nat) returns (c: seq<Label>, t: State)
    requires Inv(s) && At(s, k, Waiting) && s.loop.Idle?
    requires IsClosed(s, k) == 1 || Destroys(s.events, s.handlers[k].id) >= 1
    ensures Leads(s, c, t) && At(t, k, Waiting) && IsClosed(t, k) == 1
    decreases |s.events|
  {
    if IsClosed(s, k) == 1 {
      LeadsNowhere(s);
      c, t := [], s;
    } else {
      LookNext(s, k);
      var s1 := Step(s, Lookup);
      LeadsBy(s, Lookup);
      var c1, s2 := FinishLoop(s1, k);
      LeadsOn(s, [Lookup], s1, c1, s2);
      var c2, s3 := DrainToClose(s2, k);
      LeadsOn(s, [Lookup] + c1, s2, c2, s3);
      c, t := [Lookup] + c1 + c2, s3;
    }
  }

  /** Docker may remove a live container and announce a removed one at any time. */
  lemma DockerActs(s: State, k: nat)
    requires At(s, k, Waiting) && s.handlers[k].id in s.docker
    ensures var id := s.handlers[k].id;
      && (s.docker[id].phase.Live? ==>
            && Enabled(s, Remove(id)) && Step(s, Remove(id)).docker[id].phase.Gone?
            && Step(s, Remove(id)).handlers == s.handlers && Step(s, Remove(id)).loop == s.loop
            && id in Step(s, Remove(id)).docker)
      && (s.docker[id].phase.Gone? ==>
            && Enabled(s, Announce(id)) && Step(s, Announce(id)).events == s.events + [Message(id, "destroy")]
            && Step(s, Announce(id)).handlers == s.handlers && Step(s, Announce(id)).loop == s.loop)
  {
  }

  lemma AnnounceGone(s: State, k: nat) returns (t: State)
    requires Inv(s) && At(s, k, Waiting) && s.loop.Idle? && s.handlers[k].id in s.docker
    requires s.docker[s.handlers[k].id].phase.Gone?
    ensures Leads(s, [Announce(s.handlers[k].id)], t) && At(t, k, Waiting) && t.loop.Idle?
    ensures Destroys(t.events, t.handlers[k].id) >= 1
  {
    var id := s.handlers[k].id;
    DockerActs(s, k);
    LeadsBy(s, Announce(id));
    DestroysAppend(s.events, Message(id, "destroy"), id);
    t := Step(s, Announce(id));
  }

  lemma Announcing(s: State, k: nat) returns (c: seq<Label>, t: State)
    requires Inv(s) && At(s, k, Waiting) && s.loop.Idle? && !DestroyLost(s, k)
    ensures Leads(s, c, t) && At(t, k, Waiting) && t.loop.Idle?
    ensures IsClosed(t, k) == 1 || Destroys(t.events, t.handlers[k].id) >= 1
  {
    var id := s.handlers[k].id;
    assert HandlerInv(s, k);
    DockerActs(s, k);
    if IsClosed(s, k) == 1 || s.docker[id].phase.Announced? {
      LeadsNowhere(s);
      c, t := [], s;
    } else if s.docker[id].phase.Gone? {
      t := AnnounceGone(s, k);
      c := [Announce(id)];
    } else {
      LeadsBy(s, Remove(id));
      t := AnnounceGone(Step(s, Remove(id)), k);
      LeadsOn(s, [Remove(id)], Step(s, Remove(id)), [Announce(id)], t);
      c := [Remove(id)] + [Announce(id)];
    }
  }

  lemma WaitingWakes(s: State, k: nat) returns (c: seq<Label>, t: State)
    requires Inv(s) && At(s, k, Waiting) && !NeverWoken(s, k)
    ensures Leads(s, c, t) && Enabled(t, Wake(k))
  {
    if IsClosed(s, k) == 1 {
      LeadsNowhere(s);
      c, t := [], s;
    } else {
      var c1, s1 := FinishLoop(s, k);
      var c2, s2 := Announcing(s1, k);
      LeadsOn(s, c1, s1, c2, s2);
      var c3, s3 := DrainToClose(s2, k);
      LeadsOn(s, c1 + c2, s2, c3, s3);
      c, t := c1 + c2 + c3, s3;
    }
  }

  // ---- On the way to the wait

  /** Docker never runs out of ids. */
  lemma {:induction false} LongerThanAll(ids: set<string>) returns (n: nat)
    ensures n >= 10 && forall id :: id in ids ==> |id| < n
  {
    if ids == {} {
      n := 10;
    } else {
      var id :| id in ids;
      n := LongerThanAll(ids - {id});
      if |id| >= n { n := |id| + 1; }
    }
  }

  lemma FreshId(s: State) returns (id: string)
    ensures id !in s.docker && |id| >= 10
  {
    var n := LongerThanAll(s.docker.Keys);
    id := seq(n, _ => 'x');
    assert id in s.docker.Keys ==> |id| < n;
  }

  /** A handler before its wait, and the action that takes it one place further. */
  predicate BeforeWait(h: Handler) {
    h.pc.Preparing? || h.pc.Starting? || h.pc.Storing?
  }

  function PcRank(pc: Pc): nat {
    match pc
    case Preparing => 3
    case Starting => 2
    case Storing => 1
    case _ => 0
  }

  lemma GoesOn(s: State, k: nat, id: string)
    requires k < |s.handlers| && BeforeWait(s.handlers[k]) && !NeverWoken(s, k) && id !in s.docker && |id| >= 10
    requires s.handlers[k].container.complete.Open?
    requires s.handlers[k].pc.Preparing? ==> s.handlers[k].id == ""
    ensures var l := if s.handlers[k].pc.Preparing? then Create(k, id) else if s.handlers[k].pc.Starting? then Start(k) else Store(k);
      && Enabled(s, l) && k < |Step(s, l).handlers|
      && (BeforeWait(Step(s, l).handlers[k]) || At(Step(s, l), k, Waiting))
      && PcRank(Step(s, l).handlers[k].pc) < PcRank(s.handlers[k].pc)
      && !NeverWoken(Step(s, l), k)
  {
  }

  lemma {:induction false} HandlerWakes(s: State, k: nat) returns (c: seq<Label>, t: State)
    requires Inv(s) && k < |s.handlers| && (BeforeWait(s.handlers[k]) || At(s, k, Waiting)) && !NeverWoken(s, k)
    ensures Leads(s, c, t) && Enabled(t, Wake(k))
    decreases PcRank(s.handlers[k].pc)
  {
    if At(s, k, Waiting) {
      c, t := WaitingWakes(s, k);
    } else {
      var id := FreshId(s);
      assert HandlerInv(s, k);
      GoesOn(s, k, id);
      var l := if s.handlers[k].pc.Preparing? then Create(k, id) else if s.handlers[k].pc.Starting? then Start(k) else Store(k);
      LeadsBy(s, l);
      c, t := HandlerWakes(Step(s, l), k);
      LeadsOn(s, [l], Step(s, l), c, t);
      c := [l] + c;
    }
  }

  // ---- Waking, exactly

  ghost predicate WakesAfter(s: State, c: seq<Label>, t: State, h: nat) {
    Reaches(s, c, t) && Enabled(t, Wake(h))
  }

  ghost predicate CanWake(s: State, h: nat) {
    exists c, t :: WakesAfter(s, c, t, h)
  }

  /** In every reachable state, for a handler that holds a slot and is not past its wait: some
      continuation wakes it if and only if neither was its destroy lost nor has the event loop
      stopped before closing its channel. */
  lemma WakesIffHeard(capacity: nat, schedule: seq<Label>, s: State, h: nat)
    requires Reaches(Init(capacity), schedule, s)
    requires h < |s.handlers| && (BeforeWait(s.handlers[h]) || At(s, h, Waiting))
    ensures CanWake(s, h) <==> !NeverWoken(s, h)
  {
    ReachableInv(capacity, schedule, s);
    if NeverWoken(s, h) {
      forall c, t | Reaches(s, c, t) ensures !Enabled(t, Wake(h)) {
        RunKeepsDoom(s, c, t, h);
      }
    } else {
      var c, t := HandlerWakes(s, h);
      assert WakesAfter(s, c, t, h);
    }
  }

  /** The guard of the event loop decides it: looking up a container's destroy loses it if and only
      if its id is not in the map, that is, if and only if its handler has not stored it yet. */
  lemma LookupLosesIffNotStored(s: State, h: nat)
    requires Inv(s) && h < |s.handlers| && HasContainer(s.handlers[h]) && Enabled(s, Lookup)
    requires s.events[0] == Message(s.handlers[h].id, "destroy")
    ensures DestroyLost(Step(s, Lookup), h) <==> s.handlers[h].id !in s.containers
    ensures s.handlers[h].id !in s.containers <==> !s.handlers[h].pc.Waiting?
  {
    var id := s.handlers[h].id;
    assert HandlerInv(s, h);
    assert DestroyOnce(s, id);
    if id in s.containers {
      assert HandlerInv(s, s.containers[id]);
    }
  }

  // ---- Slots, exactly

  lemma DoomedHold(s: State)
    requires Inv(s)
    ensures DoomedHandlers(s) <= Holders(s.handlers) && |Holders(s.handlers)| == |s.limiter|
  {
    HoldersCounted(s.handlers);
  }

  lemma SubsetSize(a: set<nat>, b: set<nat>)
    requires a <= b
    ensures |a| <= |b| && (|a| == |b| ==> a == b)
  {
    assert b == a + (b - a);
  }

  /** Once the doomed handlers are as many as the slots, no continuation lets anyone through: the
      limiter stays full, every slot is held by a doomed handler, and whoever waits for a slot then
      waits in every later state. */
  lemma AllSlotsLostIsForever(
      capacity: nat, schedule: seq<Label>, s: State, continuation: seq<Label>, t: State)
    requires Reaches(Init(capacity), schedule, s) && Reaches(s, continuation, t)
    requires |DoomedHandlers(s)| == capacity
    ensures |t.limiter| == capacity && DoomedHandlers(t) == Holders(t.handlers)
    ensures forall h :: !Enabled(t, TakeSlot(h))
    ensures forall h :: 0 <= h < |s.handlers| && s.handlers[h].pc.AwaitSlot? ==> At(t, h, AwaitSlot)
  {
    ReachableInv(capacity, schedule, s);
    RunKeepsCapacity(Init(capacity), schedule, s);
    FullStaysFull(s, continuation, t);
    forall h | 0 <= h < |s.handlers| && s.handlers[h].pc.AwaitSlot? ensures At(t, h, AwaitSlot) {
      StarvedStays(s, continuation, t, h);
    }
  }

  lemma FullStaysFull(s: State, continuation: seq<Label>, t: State)
    requires Inv(s) && Reaches(s, continuation, t) && |DoomedHandlers(s)| == s.capacity
    ensures Inv(t) && t.capacity == s.capacity == |t.limiter| == |DoomedHandlers(t)|
    ensures DoomedHandlers(t) == Holders(t.handlers)
  {
    RunKeepsInv(s, continuation, t);
    RunKeepsCapacity(s, continuation, t);
    forall h | h in DoomedHandlers(s) ensures h in DoomedHandlers(t) {
      RunKeepsDoom(s, continuation, t, h);
    }
    DoomedHold(t);
    SubsetSize(DoomedHandlers(s), DoomedHandlers(t));
    SubsetSize(DoomedHandlers(t), Holders(t.handlers));
  }

  lemma {:induction false} StarvedStays(s: State, schedule: seq<Label>, t: State, h: nat)
    requires Inv(s) && Reaches(s, schedule, t) && |DoomedHandlers(s)| == s.capacity && At(s, h, AwaitSlot)
    ensures At(t, h, AwaitSlot)
    decreases |schedule|
  {
    if schedule != [] {
      var l := schedule[0];
      LeadsNowhere(s);
      FullStaysFull(s, [], s);
      NoPanic(s, l);
      StillAwaiting(s, l, h);
      OneStep(s, l);
      FullStaysFull(s, [l], Step(s, l));
      StarvedStays(Step(s, l), schedule[1..], t, h);
    }
  }

  /** A handler in flight that is not doomed can give a slot back. */
  lemma ReleaseReachable(s: State, k: nat) returns (c: seq<Label>, t: State)
    requires Inv(s) && k < |s.handlers| && InFlight(s.handlers[k]) && !Doomed(s, k)
    ensures Leads(s, c, t) && |t.limiter| < t.capacity
    decreases if s.handlers[k].pc.Releasing? then 0 else if s.handlers[k].pc.Woken? then 1 else 2
  {
    Localise(s, k);
    if s.handlers[k].pc.Releasing? {
      LeadsBy(s, ReleaseSlot(k));
      c, t := [ReleaseSlot(k)], Step(s, ReleaseSlot(k));
    } else if s.handlers[k].pc.Woken? {
      NoPanic(s, ReadResponse(k));
      ReadGoesOn(s, k);
      LeadsBy(s, ReadResponse(k));
      c, t := ReleaseReachable(Step(s, ReadResponse(k)), k);
      LeadsOn(s, [ReadResponse(k)], Step(s, ReadResponse(k)), c, t);
      c := [ReadResponse(k)] + c;
    } else {
      var c1, s1 := HandlerWakes(s, k);
      WakeGoesOn(s1, k);
      LeadsBy(s1, Wake(k));
      LeadsOn(s, c1, s1, [Wake(k)], Step(s1, Wake(k)));
      var c2, s2 := ReleaseReachable(Step(s1, Wake(k)), k);
      LeadsOn(s, c1 + [Wake(k)], Step(s1, Wake(k)), c2, s2);
      c, t := c1 + [Wake(k)] + c2, s2;
    }
  }

  lemma WakeGoesOn(s: State, k: nat)
    requires Enabled(s, Wake(k))
    ensures At(Step(s, Wake(k)), k, Woken) && !Doomed(Step(s, Wake(k)), k)
  {
  }

  lemma ReadGoesOn(s: State, k: nat)
    requires At(s, k, Woken) && s.handlers[k].id in s.containers && s.containers[s.handlers[k].id] == k
    requires GetResponse(s.handlers[k].container, s.handlers[k].test).Ok?
    ensures var t := Step(s, ReadResponse(k));
      k < |t.handlers| && t.handlers[k].pc.Releasing? && !Doomed(t, k)
  {
  }

  ghost predicate TakesAfter(s: State, c: seq<Label>, t: State, h: nat) {
    Reaches(s, c, t) && Enabled(t, TakeSlot(h))
  }

  ghost predicate CanTakeSlot(s: State, h: nat) {
    exists c, t :: TakesAfter(s, c, t, h)
  }

  /** In every reachable state a handler that waits for a slot can still get one, on some
      continuation, if and only if fewer handlers are doomed than there are slots. */
  lemma SlotIffNotAllDoomed(capacity: nat, schedule: seq<Label>, s: State, h: nat)
    requires Reaches(Init(capacity), schedule, s) && At(s, h, AwaitSlot)
    ensures |DoomedHandlers(s)| <= capacity
    ensures CanTakeSlot(s, h) <==> |DoomedHandlers(s)| < capacity
  {
    ReachableInv(capacity, schedule, s);
    RunKeepsCapacity(Init(capacity), schedule, s);
    DoomedHold(s);
    SubsetSize(DoomedHandlers(s), Holders(s.handlers));
    if |DoomedHandlers(s)| == capacity {
      forall c, t | Reaches(s, c, t) ensures !Enabled(t, TakeSlot(h)) {
        AllSlotsLostIsForever(capacity, schedule, s, c, t);
      }
    } else {
      var c, t := FreeSlot(s);
      AwaiterKept(s, c, t, h);
      assert TakesAfter(s, c, t, h);
    }
  }

  lemma FreeSlot(s: State) returns (c: seq<Label>, t: State)
    requires Inv(s) && |DoomedHandlers(s)| < s.capacity
    ensures Leads(s, c, t) && |t.limiter| < t.capacity
  {
    if |s.limiter| < s.capacity {
      LeadsNowhere(s);
      c, t := [], s;
    } else {
      DoomedHold(s);
      if Holders(s.handlers) <= DoomedHandlers(s) {
        SubsetSize(Holders(s.handlers), DoomedHandlers(s));
      }
      var k :| k in Holders(s.handlers) && k !in DoomedHandlers(s);
      c, t := ReleaseReachable(s, k);
    }
  }

  // ---- One fast container

  /** A container that is gone before its handler stored it, in a loader of capacity one. */
  const ID := "0123456789"

  const CONTAINER_RUNS: seq<Label> := [Arrive("request", None)] + [TakeSlot(0)] + [Create(0, ID)] + [Start(0)]

  const CONTAINER_GOES: seq<Label> := [Remove(ID)] + [Announce(ID)] + [Lookup]

  const HANDLER_WAITS: seq<Label> := [Store(0)] + [TimeOut(0)]

  function FastContainer(pc: Pc, containers: map<string, nat>, phase: Phase): State {
    State(1, ["request"], containers, [Handler("request", None, pc, ID, FRESH)],
          map[ID := DockerContainer(0, phase)], [], Idle)
  }

  lemma ContainerRuns()
    ensures Reaches(Init(1), CONTAINER_RUNS, FastContainer(Storing, map[], Live))
  {
    var x := Handler("request", None, AwaitSlot, "", FRESH);
    var s1 := Init(1).(handlers := [x]);
    var s2 := s1.(handlers := [x.(pc := Preparing)], limiter := ["request"]);
    var s3 := FastContainer(Starting, map[], Live);
    assert Step(Init(1), Arrive("request", None)) == s1;
    OneStep(Init(1), Arrive("request", None));
    assert Step(s1, TakeSlot(0)) == s2;
    Then(Init(1), [Arrive("request", None)], s1, TakeSlot(0));
    assert Step(s2, Create(0, ID)) == s3;
    Then(Init(1), [Arrive("request", None)] + [TakeSlot(0)], s2, Create(0, ID));
    assert Step(s3, Start(0)) == FastContainer(Storing, map[], Live);
    Then(Init(1), [Arrive("request", None)] + [TakeSlot(0)] + [Create(0, ID)], s3, Start(0));
  }

  lemma ContainerGoes()
    ensures Reaches(FastContainer(Storing, map[], Live), CONTAINER_GOES, FastContainer(Storing, map[], Announced))
  {
    var s := FastContainer(Storing, map[], Live);
    var s1 := FastContainer(Storing, map[], Gone);
    var s2 := FastContainer(Storing, map[], Announced).(events := [Message(ID, "destroy")]);
    assert Step(s, Remove(ID)) == s1;
    OneStep(s, Remove(ID));
    assert Step(s1, Announce(ID)) == s2;
    Then(s, [Remove(ID)], s1, Announce(ID));
    assert Step(s2, Lookup) == FastContainer(Storing, map[], Announced);
    Then(s, [Remove(ID)] + [Announce(ID)], s2, Lookup);
  }

  lemma HandlerWaits()
    ensures Reaches(FastContainer(Storing, map[], Announced), HANDLER_WAITS, FastContainer(TimedOut, map[ID := 0], Announced))
  {
    var s := FastContainer(Storing, map[], Announced);
    var s1 := FastContainer(Waiting, map[ID := 0], Announced);
    assert Step(s, Store(0)) == s1;
    OneStep(s, Store(0));
    assert Step(s1, TimeOut(0)) == FastContainer(TimedOut, map[ID := 0], Announced);
    Then(s, [Store(0)], s1, TimeOut(0));
  }

  lemma FastContainerRun()
    ensures Reaches(Init(1), CONTAINER_RUNS + CONTAINER_GOES + HANDLER_WAITS, FastContainer(TimedOut, map[ID := 0], Announced))
  {
    ContainerRuns();
    ContainerGoes();
    HandlerWaits();
    RunsCompose(Init(1), CONTAINER_RUNS, FastContainer(Storing, map[], Live), CONTAINER_GOES);
    RunsCompose(Init(1), CONTAINER_RUNS + CONTAINER_GOES, FastContainer(Storing, map[], Announced), HANDLER_WAITS);
  }

  /** The run exists, and one container that fast is enough to starve a loader of capacity one:
      however it goes on, nobody takes a slot again. */
  lemma FastContainerStarvesLoader(continuation: seq<Label>, t: State)
    requires Reaches(FastContainer(TimedOut, map[ID := 0], Announced), continuation, t)
    ensures Exec(Init(1), CONTAINER_RUNS + CONTAINER_GOES + HANDLER_WAITS)
      == Some(FastContainer(TimedOut, map[ID := 0], Announced))
    ensures Exec(Init(1), CONTAINER_RUNS + CONTAINER_GOES + HANDLER_WAITS + continuation) == Some(t)
    ensures |t.limiter| == 1 && forall h :: !Enabled(t, TakeSlot(h))
  {
    var s := FastContainer(TimedOut, map[ID := 0], Announced);
    var first := CONTAINER_RUNS + CONTAINER_GOES + HANDLER_WAITS;
    FastContainerRun();
    RunsCompose(Init(1), first, s, continuation);
    assert DoomedHandlers(s) == {0};
    AllSlotsLostIsForever(1, first, s, continuation, t);
  }
}
