/** The memory watch of one run as three processes: the sampler goroutine of `StreamPid`, the
    goroutine that waits for the program and closes `pidDone`, and the loop of `runProject` that
    consumes the samples. The value channel is unbuffered, so a sample is handed over in one step. */
module Sampler {
  import opened Text
  import opened Runner

  datatype SamplerPc =
    | Polling
    | ErrorSelect         // reading the stat file failed
    | Sending(value: int) // select on done and the send
    | Sleeping
    | Returning           // the deferred close is still to come
    | Exited

  datatype WaiterPc = Waiting | WaitReturned | DoneClosed

  datatype ConsumerPc =
    | Ranging
    | Handling(sample: int)
    | Left                // over the limit: the program is killed and the loop abandoned
    | Drained             // the value channel was closed
    | Finished            // the process state has been read

  datatype State = State(
    limit: int,
    sampler: SamplerPc,
    waiter: WaiterPc,
    consumer: ConsumerPc,
    processExited: bool,
    processState: bool,   // set by Wait
    valueClosed: bool,
    produced: seq<int>,
    received: seq<int>,
    memory: int,
    crashed: bool)

  function Init(limit: int): State {
    State(limit, Polling, Waiting, Ranging, false, false, false, [], [], 1, false)
  }

  datatype Label =
    | PollOk(value: int) | PollFails | ErrorDone | ErrorContinue | SendDone | Transfer | Wakeup | CloseValue
    | ProcessExits | WaitReturns | CloseDone
    | Handle | Drain | ReadProcessState

  predicate Enabled(s: State, l: Label) {
    match l
    case PollOk(_) => s.sampler.Polling?
    case PollFails => s.sampler.Polling?
    case ErrorDone => s.sampler.ErrorSelect? && s.waiter.DoneClosed?
    case ErrorContinue => s.sampler.ErrorSelect? && !s.waiter.DoneClosed?
    case SendDone => s.sampler.Sending? && s.waiter.DoneClosed?
    case Transfer => s.sampler.Sending? && s.consumer.Ranging?
    case Wakeup => s.sampler.Sleeping?
    case CloseValue => s.sampler.Returning?
    case ProcessExits => !s.processExited
    case WaitReturns => s.waiter.Waiting? && s.processExited
    case CloseDone => s.waiter.WaitReturned?
    case Handle => s.consumer.Handling?
    case Drain => s.consumer.Ranging? && s.valueClosed
    case ReadProcessState => s.consumer.Drained?
  }

  function HandleSample(s: State, v: int): State {
    if v > s.memory then s.(memory := v, consumer := if v > s.limit then Left else Ranging)
    else s.(consumer := Ranging)
  }

  /** A send on, or a second close of, a closed channel and a missing process state crash. */
  function Step(s: State, l: Label): State
    requires Enabled(s, l)
  {
    match l
    case PollOk(v) => s.(sampler := Sending(v), produced := s.produced + [v])
    case PollFails => s.(sampler := ErrorSelect)
    case ErrorDone => s.(sampler := Returning)
    case ErrorContinue => s.(sampler := Polling)
    case SendDone => s.(sampler := Returning)
    case Transfer =>
      s.(sampler := Sleeping, consumer := Handling(s.sampler.value),
         received := s.received + [s.sampler.value], crashed := s.crashed || s.valueClosed)
    case Wakeup => s.(sampler := Polling)
    case CloseValue => s.(sampler := Exited, valueClosed := true, crashed := s.crashed || s.valueClosed)
    case ProcessExits => s.(processExited := true)
    case WaitReturns => s.(waiter := WaitReturned, processState := true)
    case CloseDone => s.(waiter := DoneClosed)
    case Handle => HandleSample(s, s.consumer.sample)
    case Drain => s.(consumer := Drained)
    case ReadProcessState => s.(consumer := Finished, crashed := s.crashed || !s.processState)
  }

  function Exec(s: State, schedule: seq<Label>): Option<State>
    decreases |schedule|
  {
    if schedule == [] then Some(s)
    else if Enabled(s, schedule[0]) then Exec(Step(s, schedule[0]), schedule[1..])
    else None
  }

  ghost predicate Reaches(s: State, schedule: seq<Label>, t: State) {
    Exec(s, schedule) == Some(t)
  }

  // ---- Invariant

  ghost predicate ChannelInv(s: State) {
    && !s.crashed
    && (s.valueClosed <==> s.sampler.Exited?)
    && (s.sampler.Returning? || s.sampler.Exited? ==> s.waiter.DoneClosed?)
    && (s.processState <==> !s.waiter.Waiting?)
    && (s.processState ==> s.processExited)
    && (s.consumer.Drained? || s.consumer.Finished? ==> s.valueClosed)
  }

  ghost predicate StreamInv(s: State) {
    match s.sampler
    case Sending(v) => s.produced == s.received + [v]
    case Returning => s.received <= s.produced && |s.produced| <= |s.received| + 1
    case Exited => s.received <= s.produced && |s.produced| <= |s.received| + 1
    case _ => s.produced == s.received
  }

  ghost predicate Within(samples: seq<int>, limit: int) {
    forall i :: 0 <= i < |samples| ==> samples[i] <= Max(1, limit)
  }

  /** The memory is the running maximum of the samples looked at, and only the last of them, which
      makes the consumer leave, is over the limit. */
  ghost predicate MemoryInv(s: State) {
    var last := |s.received| - 1;
    match s.consumer
    case Handling(v) =>
      && last >= 0 && s.received[last] == v
      && Seen(s.received[..last], s.memory, s.limit)
    case Left =>
      && last >= 0 && s.received[last] == s.memory > Max(1, s.limit)
      && Within(s.received[..last], s.limit) && s.memory == Peak(1, s.received)
    case _ => Seen(s.received, s.memory, s.limit)
  }

  ghost predicate Seen(samples: seq<int>, memory: int, limit: int) {
    memory == Peak(1, samples) && memory <= Max(1, limit) && Within(samples, limit)
  }

  ghost predicate Inv(s: State) {
    ChannelInv(s) && StreamInv(s) && MemoryInv(s)
  }

  lemma SeeOneMore(samples: seq<int>, memory: int, limit: int)
    requires samples != [] && Seen(samples[..|samples| - 1], memory, limit)
    ensures var v := samples[|samples| - 1];
      && Peak(1, samples) == Max(memory, v)
      && (v <= Max(1, limit) ==> Seen(samples, Max(memory, v), limit))
  {
    var front := samples[..|samples| - 1];
    assert forall i :: 0 <= i < |front| ==> samples[i] == front[i];
  }

  lemma TransferKeepsMemory(s: State)
    requires MemoryInv(s) && Enabled(s, Transfer)
    ensures MemoryInv(Step(s, Transfer))
  {
    assert (s.received + [s.sampler.value])[..|s.received|] == s.received;
  }

  lemma HandleKeepsMemory(s: State)
    requires MemoryInv(s) && Enabled(s, Handle)
    ensures MemoryInv(Step(s, Handle))
  {
    SeeOneMore(s.received, s.memory, s.limit);
  }

  lemma OtherKeepsMemory(s: State, l: Label)
    requires MemoryInv(s) && Enabled(s, l) && !l.Transfer? && !l.Handle?
    ensures MemoryInv(Step(s, l))
  {
    var t := Step(s, l);
    assert t.received == s.received && t.memory == s.memory && t.limit == s.limit;
  }

  lemma StepKeepsMemory(s: State, l: Label)
    requires MemoryInv(s) && Enabled(s, l)
    ensures MemoryInv(Step(s, l))
  {
    match l {
      case Transfer => TransferKeepsMemory(s);
      case Handle => HandleKeepsMemory(s);
      case _ => OtherKeepsMemory(s, l);
    }
  }

  lemma StepKeepsStream(s: State, l: Label)
    requires StreamInv(s) && Enabled(s, l)
    ensures StreamInv(Step(s, l))
  {
  }

  lemma StepKeepsChannel(s: State, l: Label)
    requires ChannelInv(s) && Enabled(s, l)
    ensures ChannelInv(Step(s, l))
  {
  }

  lemma StepKeepsInv(s: State, l: Label)
    requires Inv(s) && Enabled(s, l)
    ensures Inv(Step(s, l))
  {
    StepKeepsChannel(s, l);
    StepKeepsMemory(s, l);
    StepKeepsStream(s, l);
  }

  lemma {:induction false} RunKeepsInv(s: State, schedule: seq<Label>, t: State)
    requires Inv(s) && Reaches(s, schedule, t)
    ensures Inv(t) && t.limit == s.limit
    decreases |schedule|
  {
    if schedule != [] {
      StepKeepsInv(s, schedule[0]);
      RunKeepsInv(Step(s, schedule[0]), schedule[1..], t);
    }
  }

  // ---- What holds on every schedule

  /** Samples are received in the order they were produced, each once, and all but perhaps the
      last; nothing is sent after the channel closed, it is closed once, and the process state is
      read only after `Wait` returned. */
  lemma StreamIsFaithful(limit: int, schedule: seq<Label>, s: State)
    requires Reaches(Init(limit), schedule, s)
    ensures s.received <= s.produced && |s.produced| <= |s.received| + 1
    ensures !s.crashed
    ensures s.consumer.Drained? || s.consumer.Finished? ==> s.processState && s.processExited
  {
    RunKeepsInv(Init(limit), schedule, s);
  }

  /** The consumer of the protocol is the loop of `RunProject` on the samples it received: the
      memory is their running maximum, it left exactly if the loop leaves early, and it left after
      the first sample over the limit. */
  lemma ConsumerIsRunProject(limit: int, schedule: seq<Label>, s: State)
    requires Reaches(Init(limit), schedule, s) && (s.consumer.Left? || s.consumer.Drained? || s.consumer.Finished?)
    ensures s.memory == Peak(1, s.received)
    ensures Consumed(s.received, limit) == |s.received|
    ensures s.consumer.Left? <==> s.received != [] && s.received[|s.received| - 1] > Max(1, limit)
    ensures s.consumer.Left? ==> s.memory > limit
  {
    RunKeepsInv(Init(limit), schedule, s);
    ConsumedIs(s.received, limit, |s.received|);
  }

  // ---- The sampler stops

  function Distance(pc: SamplerPc): nat {
    match pc
    case Sleeping => 4
    case Polling => 3
    case ErrorSelect => 2
    case Sending(_) => 2
    case Returning => 1
    case Exited => 0
  }

  predicate IsSamplerStep(l: Label) {
    !l.ProcessExits? && !l.WaitReturns? && !l.CloseDone? && !l.Handle? && !l.Drain? && !l.ReadProcessState?
  }

  function SamplerSteps(schedule: seq<Label>): nat {
    if schedule == [] then 0 else (if IsSamplerStep(schedule[0]) then 1 else 0) + SamplerSteps(schedule[1..])
  }

  /** Once the consumer has left and `pidDone` is closed, the sampler makes at most four more steps
      on any schedule, and can make one until it has exited. */
  lemma {:induction false} SamplerExits(s: State, schedule: seq<Label>, t: State)
    requires Reaches(s, schedule, t) && s.consumer.Left? && s.waiter.DoneClosed?
    ensures SamplerSteps(schedule) + Distance(t.sampler) <= Distance(s.sampler) <= 4
    ensures t.consumer.Left? && t.waiter.DoneClosed?
    ensures !t.sampler.Exited? ==> exists l :: IsSamplerStep(l) && Enabled(t, l)
    decreases |schedule|
  {
    if schedule == [] {
      assert !s.sampler.Exited? ==> IsSamplerStep(Next(s)) && Enabled(s, Next(s));
    } else {
      SamplerExits(Step(s, schedule[0]), schedule[1..], t);
    }
  }

  predicate AllDone(s: State) {
    s.sampler.Exited? && s.waiter.DoneClosed? && (s.consumer.Left? || s.consumer.Finished?)
  }

  /** A step that brings the three processes nearer to their end. */
  function Next(s: State): Label {
    if s.waiter.Waiting? then WaitReturns
    else if s.waiter.WaitReturned? then CloseDone
    else if s.consumer.Handling? then Handle
    else if s.consumer.Drained? then ReadProcessState
    else match s.sampler
      case Sleeping => Wakeup
      case Polling => PollFails
      case ErrorSelect => ErrorDone
      case Sending(_) => SendDone
      case Returning => CloseValue
      case Exited => Drain
  }

  function Remaining(s: State): nat {
    Distance(s.sampler)
    + (match s.waiter case Waiting => 2 case WaitReturned => 1 case DoneClosed => 0)
    + (match s.consumer case Handling(_) => 3 case Ranging => 2 case Drained => 1 case _ => 0)
  }

  lemma NextHelps(s: State)
    requires ChannelInv(s) && s.processExited && !AllDone(s)
    ensures Enabled(s, Next(s)) && Remaining(Step(s, Next(s))) < Remaining(s) && Step(s, Next(s)).processExited
  {
  }

  lemma {:induction false} Finishes(s: State) returns (continuation: seq<Label>, t: State)
    requires Inv(s) && s.processExited
    ensures Reaches(s, continuation, t) && AllDone(t) && |continuation| <= Remaining(s)
    decreases Remaining(s)
  {
    if AllDone(s) {
      return [], s;
    }
    NextHelps(s);
    StepKeepsInv(s, Next(s));
    continuation, t := Finishes(Step(s, Next(s)));
    assert ([Next(s)] + continuation)[1..] == continuation;
    continuation := [Next(s)] + continuation;
  }

  /** Wherever the three processes are after the program has exited, they can all come to their end,
      the consumer with its result, within nine more steps. */
  lemma AlwaysCanFinish(limit: int, schedule: seq<Label>, s: State)
    requires Reaches(Init(limit), schedule, s) && s.processExited
    ensures exists continuation, t :: Reaches(s, continuation, t) && AllDone(t) && |continuation| <= 9
  {
    RunKeepsInv(Init(limit), schedule, s);
    var continuation, t := Finishes(s);
  }
}
