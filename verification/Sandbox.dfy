/** One sandbox container: the Docker events that drive its status, the runner's result file that
    becomes its response, the `complete` channel it closes, and the verdict on the test. */
module Sandbox {
  import opened Text
  import opened Status

  datatype Test = Test(stdin: seq<string>, expected: seq<string>)

  /** The contents of runner-out.json. */
  datatype ExecutionResponse = ExecutionResponse(
    compileTime: int,
    compilerOutput: seq<string>,
    output: seq<string>,
    outputErr: seq<string>,
    runtime: int,
    memory: int,
    status: int)

  const ZERO_RESPONSE := ExecutionResponse(0, [], [], [], 0, 0, NOT_RAN)

  datatype Response = Response(result: ExecutionResponse, testStatus: TestStatus)

  datatype Channel = Open | Closed

  /** Go operations that panic return `Panic`. */
  datatype Outcome<+T> = Ok(value: T) | Panic

  // ---- The state machine on values

  datatype ContainerState = ContainerState(
    status: int,
    response: Option<ExecutionResponse>,
    complete: Channel)

  const FRESH := ContainerState(NOT_RAN, None, Open)

  /** `getSandboxRunnerOutput`: an unreadable file (`None`) leaves the status alone. */
  function ReadOutput(c: ContainerState, file: Option<ExecutionResponse>): ContainerState {
    if file.Some? then c.(status := file.value.status) else c
  }

  function Record(c: ContainerState, file: Option<ExecutionResponse>): ContainerState {
    c.(response := file)
  }

  /** `cleanup`: closing a closed channel panics. */
  function Cleanup(c: ContainerState): Outcome<ContainerState> {
    if c.complete.Closed? then Panic else Ok(c.(complete := Closed))
  }

  /** The status an event other than destroy sets. */
  function EventStatus(action: string): Option<int> {
    if action == "create" then Some(CREATED)
    else if action == "start" then Some(RUNNING)
    else if action == "kill" then Some(KILLING)
    else if action == "die" then Some(KILLED)
    else None
  }

  function SetStatus(c: ContainerState, action: string): ContainerState {
    if EventStatus(action).Some? then c.(status := EventStatus(action).value) else c
  }

  /** `updateStatusFromDockerEvent`. `file` is what reading runner-out.json gives at that moment;
      only a destroy event looks at it. The cleanup is deferred, so it comes last. */
  function HandleEvent(c: ContainerState, action: string, file: Option<ExecutionResponse>)
    : Outcome<ContainerState>
  {
    if action == "destroy" then Cleanup(Record(ReadOutput(c, file), file)) else Ok(SetStatus(c, action))
  }

  /** Each event in turn, by its name: what it does to the status, and that no other field changes
      before the destroy. */
  lemma EventsByName(c: ContainerState, action: string, file: Option<ExecutionResponse>)
    ensures HandleEvent(c, "create", file) == Ok(c.(status := CREATED))
    ensures HandleEvent(c, "start", file) == Ok(c.(status := RUNNING))
    ensures HandleEvent(c, "kill", file) == Ok(c.(status := KILLING))
    ensures HandleEvent(c, "die", file) == Ok(c.(status := KILLED))
    ensures c.complete.Open? && file.Some? ==>
      HandleEvent(c, "destroy", file) == Ok(ContainerState(file.value.status, file, Closed))
    ensures c.complete.Open? && file.None? ==>
      HandleEvent(c, "destroy", file) == Ok(ContainerState(c.status, None, Closed))
    ensures c.complete.Closed? ==> HandleEvent(c, "destroy", file).Panic?
    ensures action !in {"create", "start", "kill", "die", "destroy"} ==> HandleEvent(c, action, file) == Ok(c)
  {
  }

  datatype Event = Event(action: string, file: Option<ExecutionResponse>)

  function Replay(c: ContainerState, trace: seq<Event>): Outcome<ContainerState>
    decreases |trace|
  {
    if trace == [] then Ok(c) else
      match HandleEvent(c, trace[0].action, trace[0].file)
      case Panic => Panic
      case Ok(next) => Replay(next, trace[1..])
  }

  // ---- What a trace means, read from its end

  /** The result files of the destroy events, in order. */
  function DestroyFiles(trace: seq<Event>): seq<Option<ExecutionResponse>> {
    if trace == [] then [] else
      var last := trace[|trace| - 1];
      DestroyFiles(trace[..|trace| - 1]) + if last.action == "destroy" then [last.file] else []
  }

  /** The status set by the last event that sets one. */
  function LastStatus(trace: seq<Event>): int {
    if trace == [] then NOT_RAN else
      var last := trace[|trace| - 1];
      if last.action == "destroy" && last.file.Some? then last.file.value.status
      else if last.action != "destroy" && EventStatus(last.action).Some? then EventStatus(last.action).value
      else LastStatus(trace[..|trace| - 1])
  }

  lemma {:induction false} ReplayAppend(c: ContainerState, trace: seq<Event>, e: Event)
    ensures Replay(c, trace + [e]) ==
      match Replay(c, trace) case Panic => Panic case Ok(d) => HandleEvent(d, e.action, e.file)
    decreases |trace|
  {
    if trace == [] {
      assert trace + [e] == [e] && [e][1..] == [];
    } else {
      var next := HandleEvent(c, trace[0].action, trace[0].file);
      assert (trace + [e])[1..] == trace[1..] + [e];
      if next.Ok? {
        ReplayAppend(next.value, trace[1..], e);
      }
    }
  }

  /** Every trace of events: the event path panics exactly when a second destroy arrives; until
      then `complete` is closed exactly when the destroy has come, the response is the file that
      destroy read, and the status is the last one set. */
  lemma {:induction false} ReplayMeaning(trace: seq<Event>)
    ensures Replay(FRESH, trace) ==
      var files := DestroyFiles(trace);
      if |files| > 1 then Panic
      else if |files| == 1 then Ok(ContainerState(LastStatus(trace), files[0], Closed))
      else Ok(ContainerState(LastStatus(trace), None, Open))
  {
    if trace != [] {
      var prefix, last := trace[..|trace| - 1], trace[|trace| - 1];
      ReplayMeaning(prefix);
      assert trace == prefix + [last];
      ReplayAppend(FRESH, prefix, last);
    }
  }

  predicate NoDestroy(trace: seq<Event>) {
    forall i :: 0 <= i < |trace| ==> trace[i].action != "destroy"
  }

  /** Before its destroy a container is open, has no response and is never Finished. */
  lemma {:induction false} BeforeDestroy(trace: seq<Event>)
    requires NoDestroy(trace)
    ensures DestroyFiles(trace) == [] && LastStatus(trace) != FINISHED
  {
    if trace != [] {
      BeforeDestroy(trace[..|trace| - 1]);
    }
  }

  /** Whatever events came before it, the destroy leaves the file it read as response, and a status
      of Finished exactly if that file says so. */
  lemma DestroyAfterTrace(before: seq<Event>, file: Option<ExecutionResponse>)
    requires NoDestroy(before)
    ensures var r := Replay(FRESH, before + [Event("destroy", file)]);
      && r.Ok? && r.value.complete.Closed? && r.value.response == file
      && (r.value.status == FINISHED <==> file.Some? && file.value.status == FINISHED)
  {
    var trace := before + [Event("destroy", file)];
    assert trace[..|trace| - 1] == before;
    BeforeDestroy(before);
    ReplayMeaning(trace);
  }

  // ---- The verdict

  /** A container whose status says Finished holds the response that says so. */
  predicate Settled(c: ContainerState) {
    c.status == FINISHED ==> c.response.Some? && c.response.value.status == FINISHED
  }

  /** No event other than destroy sets Finished, so every trace leaves a settled container. */
  lemma {:induction false} ReplaySettled(c: ContainerState, trace: seq<Event>)
    requires Settled(c) && (c.status == FINISHED ==> c.complete.Closed?)
    requires Replay(c, trace).Ok?
    ensures Settled(Replay(c, trace).value)
    decreases |trace|
  {
    if trace != [] {
      ReplaySettled(HandleEvent(c, trace[0].action, trace[0].file).value, trace[1..]);
    }
  }

  /** `Container.GetResponse` on values: it dereferences the response only for a finished run with
      a test. */
  function GetResponse(c: ContainerState, test: Option<Test>): Outcome<Response> {
    if c.status == FINISHED && test.Some? && c.response.None? then Panic else
      var result := if c.response.Some? then c.response.value else ZERO_RESPONSE;
      Ok(Response(result,
         if c.status != FINISHED || test.None? then NoTest
         else if result.output == test.value.expected then TestPassed else TestFailed))
  }

  /** The response a container keeps after it was read. */
  function AfterGetResponse(c: ContainerState): ContainerState {
    if c.response.None? then c.(response := Some(ZERO_RESPONSE)) else c
  }

  /** For every trace with at most one destroy, reading the response never panics, and the test
      passes exactly when the run finished, a test exists and the output is the expected output. */
  lemma VerdictOfTrace(trace: seq<Event>, test: Option<Test>)
    requires |DestroyFiles(trace)| <= 1
    ensures Replay(FRESH, trace).Ok?
    ensures var r := GetResponse(Replay(FRESH, trace).value, test);
      && r.Ok?
      && (r.value.testStatus == TestPassed <==>
            && LastStatus(trace) == FINISHED && test.Some?
            && |DestroyFiles(trace)| == 1 && DestroyFiles(trace)[0].Some?
            && DestroyFiles(trace)[0].value.output == test.value.expected)
      && (r.value.testStatus == NoTest <==> LastStatus(trace) != FINISHED || test.None?)
      && r.value.testStatus != TestNotRan
  {
    ReplayMeaning(trace);
    ReplaySettled(FRESH, trace);
  }

  // ---- The object

  class Container {
    const test: Option<Test>
    var id: string
    var status: int
    var events: seq<Event>
    var executionResponse: Option<ExecutionResponse>
    var complete: Channel

    ghost function State(): ContainerState
      reads this
    {
      ContainerState(status, executionResponse, complete)
    }

    constructor (test: Option<Test>)
      ensures this.test == test && id == "" && events == []
      ensures State() == FRESH
    {
      this.test := test;
      id, status, events, executionResponse, complete := "", NOT_RAN, [], None, Open;
    }

    method CloseComplete() returns (panicked: bool)
      modifies this`complete
      ensures panicked <==> Cleanup(old(State())).Panic?
      ensures !panicked ==> State() == Cleanup(old(State())).value
      ensures panicked ==> State() == old(State())
    {
      panicked := complete.Closed?;
      complete := Closed;
    }

    method HandleContainerRemoved(file: Option<ExecutionResponse>) returns (panicked: bool)
      modifies this`status, this`executionResponse, this`complete
      ensures panicked <==> HandleEvent(old(State()), "destroy", file).Panic?
      ensures !panicked ==> State() == HandleEvent(old(State()), "destroy", file).value
    {
      if file.Some? {
        status := file.value.status;
      }
      executionResponse := file;
      panicked := CloseComplete();
    }

    /** The log line slices the first ten bytes of the id, which panics on a shorter one. */
    method AddDockerEventMessage(e: Event) returns (panicked: bool)
      modifies this
      ensures panicked <==> |id| < 10 || HandleEvent(old(State()), e.action, e.file).Panic?
      ensures id == old(id)
      ensures !panicked ==>
        && State() == HandleEvent(old(State()), e.action, e.file).value
        && events == old(events) + [e]
      ensures panicked ==> events == old(events)
    {
      if |id| < 10 {
        return true;
      }
      panicked := false;
      match e.action {
        case "create" => status := CREATED;
        case "start" => status := RUNNING;
        case "kill" => status := KILLING;
        case "die" => status := KILLED;
        case "destroy" => panicked := HandleContainerRemoved(e.file);
        case _ =>
      }
      if !panicked {
        events := events + [e];
      }
    }

    method ReadResponse() returns (r: Outcome<Response>)
      modifies this`executionResponse
      ensures r == GetResponse(old(State()), test)
      ensures State() == if r.Panic? then old(State()) else AfterGetResponse(old(State()))
    {
      var testStatus := NoTest;
      if status == FINISHED && test.Some? {
        if executionResponse.None? {
          return Panic;
        }
        testStatus := TestPassed;
        var output, expected := executionResponse.value.output, test.value.expected;
        if |output| != |expected| {
          testStatus := TestFailed;
        } else {
          for i := 0 to |expected|
            invariant testStatus == TestPassed && output[..i] == expected[..i]
          {
            if output[i] != expected[i] {
              testStatus := TestFailed;
              break;
            }
          }
          assert output[..|output|] == output && expected[..|expected|] == expected;
        }
      }
      if executionResponse.None? {
        executionResponse := Some(ZERO_RESPONSE);
      }
      r := Ok(Response(executionResponse.value, testStatus));
    }
  }
}
