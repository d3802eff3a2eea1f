/** One compile request from its message to its verdict and uploaded files, when the container
    completes: the input file, the runner, the destroy event, the response. */
module Requests {
  import opened Text
  import opened Lines
  import opened Status
  import opened Sandbox
  import opened Runner

  /** A request carries a test when either list is non-empty. */
  function TestOf(stdin: seq<string>, expected: seq<string>): Option<Test> {
    if |stdin| > 0 || |expected| > 0 then Some(Test(stdin, expected)) else None
  }

  datatype Upload = Upload(output: string, outputErr: string, compilerOutput: Option<string>)

  function Uploads(r: ExecutionResponse, interpreter: bool): Upload {
    Upload(Join(r.output, '\n'), Join(r.outputErr, '\n'),
           if interpreter then None else Some(Join(r.compilerOutput, '\n')))
  }

  /** The law of echo, for a test that exists: with clean items the test passes exactly when the
      expected list is the input list, and a test that expects its own input passes exactly when the
      items are clean. */
  ghost predicate EchoLaw(stdin: seq<string>, expected: seq<string>, passed: bool) {
    && (CleanItems(stdin) ==> (passed <==> expected == stdin))
    && (expected == stdin ==> (passed <==> CleanItems(stdin)))
  }

  lemma EchoObeysLaw(stdin: seq<string>, expected: seq<string>)
    ensures EchoLaw(stdin, expected, Truncate(ScanAll(InputText(stdin))) == expected)
  {
    EchoIsIdentityIffClean(stdin);
  }

  /** The container emits any events, is destroyed, and its result file, if any, becomes the
      response: neither the response nor the verdict depends on the events before the destroy. */
  method Collect(id: string, test: Option<Test>, before: seq<Event>, file: Option<ExecutionResponse>)
    returns (response: Response)
    requires |id| >= 10 // Docker's container id
    requires NoDestroy(before)
    ensures response.result == if file.Some? then file.value else ExecutionResponse(0, [], [], [], 0, 0, NOT_RAN)
    ensures response.testStatus == TestPassed <==>
      response.result.status == FINISHED && test.Some? && response.result.output == test.value.expected
    ensures response.testStatus == NoTest <==> response.result.status != FINISHED || test.None?
    ensures response.testStatus != TestNotRan
  {
    var container := new Container(test);
    container.id := id;
    for i := 0 to |before|
      invariant container.id == id && container.test == test
      invariant Replay(FRESH, before[..i]) == Ok(container.State())
    {
      ReplayAppend(FRESH, before[..i], before[i]);
      assert before[..i + 1] == before[..i] + [before[i]];
      var panicked := container.AddDockerEventMessage(before[i]);
    }
    assert before[..|before|] == before;
    ReplayAppend(FRESH, before, Event("destroy", file));
    DestroyAfterTrace(before, file);
    var panicked := container.AddDockerEventMessage(Event("destroy", file));
    var r := container.ReadResponse();
    response := r.value;
  }

  datatype Result = Result(status: int, testStatus: TestStatus, files: Upload)

  /** The program was compiled and started. */
  predicate Started(steps: seq<CompileStep>, env: RunEnv) {
    CompileError(steps).None? && env.templateError.None? && env.startError.None?
  }

  /** The status of a request, case by case. */
  ghost predicate CorrectStatus(steps: seq<CompileStep>, env: RunEnv, limit: int, status: int) {
    && (CompileError(steps).Some? ==> status == RUN_TIME_ERROR)
    && (CompileError(steps).None? && env.templateError.Some? ==> status == NOT_RAN)
    && (CompileError(steps).None? && env.templateError.None? && env.startError.Some? ==>
          && (env.startError.value.LimitExceeded? ==> status == MEMORY_CONSTRAINT_EXCEEDED)
          && (env.startError.value.DeadlineExceeded? ==> status == TIME_LIMIT_EXCEEDED)
          && (env.startError.value.OtherError? ==> status == RUN_TIME_ERROR))
    && (Started(steps, env) ==>
          && (OverLimit(env, limit) <==> status == MEMORY_CONSTRAINT_EXCEEDED)
          && (!OverLimit(env, limit) ==> (env.deadlinePassed <==> status == TIME_LIMIT_EXCEEDED))
          && (!OverLimit(env, limit) && !env.deadlinePassed ==> status == FINISHED))
  }

  /** The uploaded files, whatever the status: output only of a run within its memory limit, be it in
      time or not, and the compiler's output unless the language is interpreted or the runner died. */
  ghost predicate CorrectFiles(steps: seq<CompileStep>, env: RunEnv, limit: int, interpreter: bool, files: Upload) {
    var read := Started(steps, env) && !OverLimit(env, limit);
    && files.output == (if read then Join(Truncate(ScanAll(env.stdout)), '\n') else "")
    && files.outputErr == (if read then Join(Truncate(ScanAll(env.stderr)), '\n') else "")
    && files.compilerOutput ==
         if interpreter then None
         else if CompileError(steps).None? && env.templateError.Some? then Some("")
         else Some(LastOutput(Executed(steps)))
  }

  /** What a request must come to, given the run its input caused. */
  ghost predicate Correct(
    stdin: seq<string>, expected: seq<string>, steps: seq<CompileStep>, env: RunEnv, limit: int,
    interpreter: bool, r: Result)
  {
    && CorrectStatus(steps, env, limit, r.status)
    && (r.testStatus == TestPassed <==>
          && (stdin != [] || expected != []) && r.status == FINISHED
          && Truncate(ScanAll(env.stdout)) == expected)
    && (r.testStatus == NoTest <==> r.status != FINISHED || (stdin == [] && expected == []))
    && r.testStatus != TestNotRan
    && CorrectFiles(steps, env, limit, interpreter, r.files)
  }

  lemma PanickedIsCorrect(
      stdin: seq<string>, expected: seq<string>, steps: seq<CompileStep>, env: RunEnv, limit: int,
      interpreter: bool, r: Result)
    requires CompileError(steps).None? && env.templateError.Some?
    requires r == Result(NOT_RAN, NoTest, Uploads(ExecutionResponse(0, [], [], [], 0, 0, NOT_RAN), interpreter))
    ensures Correct(stdin, expected, steps, env, limit, interpreter, r)
  {
  }

  lemma ReportedFiles(steps: seq<CompileStep>, env: RunEnv, limit: int, interpreter: bool, e: ExecutionResponse)
    requires CompileError(steps).Some? || env.templateError.None?
    requires Join(e.compilerOutput, '\n') == LastOutput(Executed(steps))
    requires var read := Started(steps, env) && !OverLimit(env, limit);
      && e.output == (if read then Truncate(ScanAll(env.stdout)) else [])
      && e.outputErr == (if read then Truncate(ScanAll(env.stderr)) else [])
    ensures CorrectFiles(steps, env, limit, interpreter, Uploads(e, interpreter))
  {
    assert Join([], '\n') == "";
  }

  lemma ReportedIsCorrect(
      stdin: seq<string>, expected: seq<string>, steps: seq<CompileStep>, env: RunEnv, limit: int,
      interpreter: bool, e: ExecutionResponse, r: Result)
    requires CompileError(steps).Some? || env.templateError.None?
    requires CorrectStatus(steps, env, limit, e.status)
    requires Join(e.compilerOutput, '\n') == LastOutput(Executed(steps))
    requires var read := Started(steps, env) && !OverLimit(env, limit);
      && e.output == (if read then Truncate(ScanAll(env.stdout)) else [])
      && e.outputErr == (if read then Truncate(ScanAll(env.stderr)) else [])
    requires r.status == e.status && r.files == Uploads(e, interpreter)
    requires r.testStatus == TestPassed <==>
      e.status == FINISHED && TestOf(stdin, expected).Some? && e.output == expected
    requires r.testStatus == NoTest <==> e.status != FINISHED || TestOf(stdin, expected).None?
    requires r.testStatus != TestNotRan
    ensures Correct(stdin, expected, steps, env, limit, interpreter, r)
  {
    FinishedMeans(steps, env, limit, e.status);
    ReportedFiles(steps, env, limit, interpreter, e);
  }

  /** `program` maps the input file to the run it causes; `before` are the events the container
      emits before it is destroyed. */
  method HandleRequest(
      id: string, stdin: seq<string>, expected: seq<string>, steps: seq<CompileStep>, compileNano: int,
      program: string -> RunEnv, limit: int, interpreter: bool, before: seq<Event>)
    returns (r: Result)
    requires |id| >= 10 // Docker's container id
    requires NoDestroy(before)
    ensures Correct(stdin, expected, steps, program(InputText(stdin)), limit, interpreter, r)
  {
    var test := TestOf(stdin, expected);
    var input := "";
    if test.Some? {
      input := WriteStandardInput(stdin);
    }
    var result := RunnerMain(steps, compileNano, program(input), limit);
    // a runner that panicked wrote no result file
    var file := if result.Ok? then Some(result.value) else None;
    var response := Collect(id, test, before, file);
    r := Result(response.result.status, response.testStatus, Uploads(response.result, interpreter));
    if result.Panic? {
      PanickedIsCorrect(stdin, expected, steps, program(input), limit, interpreter, r);
    } else {
      ReportedIsCorrect(stdin, expected, steps, program(input), limit, interpreter, result.value, r);
    }
  }

  /** A request is Finished exactly when the program ran within both limits. */
  lemma FinishedMeans(steps: seq<CompileStep>, env: RunEnv, limit: int, status: int)
    requires CorrectStatus(steps, env, limit, status)
    ensures status == FINISHED <==> Started(steps, env) && !OverLimit(env, limit) && !env.deadlinePassed
  {
  }

  /** For every correct result: the uploaded output is the program's less one newline exactly if it
      was clean, more than a thousand expected lines never pass, and a copying program obeys the law
      of echo. */
  lemma CorrectResultLaws(
      stdin: seq<string>, expected: seq<string>, steps: seq<CompileStep>, env: RunEnv, limit: int,
      interpreter: bool, r: Result)
    requires Correct(stdin, expected, steps, env, limit, interpreter, r)
    ensures r.status == FINISHED ==> (r.files.output == Chomp(env.stdout) <==> CleanText(env.stdout))
    ensures |expected| > 1000 ==> r.testStatus != TestPassed
    ensures env.stdout == InputText(stdin) && r.status == FINISHED && (stdin != [] || expected != []) ==>
      EchoLaw(stdin, expected, r.testStatus == TestPassed)
  {
    FinishedMeans(steps, env, limit, r.status);
    UploadIsOutputIffClean(env.stdout);
    EchoObeysLaw(stdin, expected);
    KeptLinesArePrefix(env.stdout);
  }

  /** The program's exit status has no influence on the result. */
  lemma ExitStatusIgnored(
      stdin: seq<string>, expected: seq<string>, steps: seq<CompileStep>, env: RunEnv, limit: int,
      interpreter: bool, r: Result, exitStatus: int)
    ensures Correct(stdin, expected, steps, env, limit, interpreter, r)
      <==> Correct(stdin, expected, steps, env.(exitStatus := exitStatus), limit, interpreter, r)
  {
  }
}
