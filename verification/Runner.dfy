/** The program inside the container: compile steps, the run with its memory watch, and the
    status it reports. Process execution, template expansion and clocks are oracles. */
module Runner {
  import opened Text
  import opened Lines
  import opened Status
  import opened Sandbox

  datatype Error = LimitExceeded | DeadlineExceeded | OtherError(message: string)

  function DetermineExecutionError(err: Option<Error>): int {
    if err == Some(LimitExceeded) then MEMORY_CONSTRAINT_EXCEEDED
    else if err == Some(DeadlineExceeded) then TIME_LIMIT_EXCEEDED
    else RUN_TIME_ERROR
  }

  // ---- Compiling

  /** What one compile step does: expanding its template, the command's combined output and error,
      and whether the compile deadline had passed when it returned. */
  datatype CompileStep = CompileStep(
    templateError: Option<Error>,
    output: string,
    commandError: Option<Error>,
    deadlinePassed: bool)

  /** How many steps are executed: up to the first deadline, or before the first template error. */
  function ExecutedCount(steps: seq<CompileStep>): (n: nat)
    ensures StopsAfter(steps, n)
  {
    if steps == [] || steps[0].templateError.Some? then 0
    else if steps[0].deadlinePassed then 1
    else
      var n := ExecutedCount(steps[1..]);
      StopsLater(steps, n);
      n + 1
  }

  predicate StopsAfter(steps: seq<CompileStep>, n: nat) {
    && n <= |steps|
    && (forall k :: 0 <= k < n ==> steps[k].templateError.None?)
    && (forall k :: 0 <= k < n - 1 ==> !steps[k].deadlinePassed)
    && (n < |steps| ==> (n > 0 && steps[n - 1].deadlinePassed) || steps[n].templateError.Some?)
  }

  lemma StopsLater(steps: seq<CompileStep>, n: nat)
    requires steps != [] && steps[0].templateError.None? && !steps[0].deadlinePassed
    requires StopsAfter(steps[1..], n)
    ensures StopsAfter(steps, n + 1)
  {
    assert forall k :: 0 < k < |steps| ==> steps[k] == steps[1..][k - 1];
  }

  /** There is one such number. */
  lemma StopsOnce(steps: seq<CompileStep>, n: nat)
    requires StopsAfter(steps, n)
    ensures n == ExecutedCount(steps)
  {
  }

  function Executed(steps: seq<CompileStep>): seq<CompileStep> {
    steps[..ExecutedCount(steps)]
  }

  function CompileError(steps: seq<CompileStep>): Option<Error> {
    var n := ExecutedCount(steps);
    if n > 0 && steps[n - 1].deadlinePassed then Some(DeadlineExceeded)
    else if n < |steps| then steps[n].templateError
    else if n == 0 then None
    else steps[n - 1].commandError
  }

  /** The last non-empty output, or nothing. */
  function LastOutput(steps: seq<CompileStep>): string {
    if steps == [] then ""
    else if steps[|steps| - 1].output != "" then steps[|steps| - 1].output
    else LastOutput(steps[..|steps| - 1])
  }

  /** Without template errors the result is the deadline if it had passed after some step, and
      otherwise what the last step gave, whatever the earlier ones did. */
  lemma CompileErrorMeaning(steps: seq<CompileStep>)
    requires forall i :: 0 <= i < |steps| ==> steps[i].templateError.None?
    ensures (exists i :: 0 <= i < |steps| && steps[i].deadlinePassed) ==> CompileError(steps) == Some(DeadlineExceeded)
    ensures (forall i :: 0 <= i < |steps| ==> !steps[i].deadlinePassed) ==>
      Executed(steps) == steps && CompileError(steps) == if steps == [] then None else steps[|steps| - 1].commandError
  {
    var n := ExecutedCount(steps);
    if i :| 0 <= i < |steps| && steps[i].deadlinePassed {
      assert n == |steps| ==> i == n - 1;
    }
  }

  /** A step that halts the loop, reached because none before it does: the deadline after it, or its
      template error before it is executed. */
  lemma HaltingStep(steps: seq<CompileStep>, i: nat)
    requires i < |steps| && forall k :: 0 <= k < i ==> steps[k].templateError.None? && !steps[k].deadlinePassed
    ensures steps[i].templateError.Some? ==>
      Executed(steps) == steps[..i] && CompileError(steps) == steps[i].templateError
    ensures steps[i].templateError.None? && steps[i].deadlinePassed ==>
      Executed(steps) == steps[..i + 1] && CompileError(steps) == Some(DeadlineExceeded)
  {
    if steps[i].templateError.Some? {
      StopsOnce(steps, i);
    } else if steps[i].deadlinePassed {
      StopsOnce(steps, i + 1);
    }
  }

  /** The output of the last step that printed something. */
  lemma {:induction false} LastOutputMeaning(steps: seq<CompileStep>, i: nat)
    requires i <= |steps| && forall k :: i <= k < |steps| ==> steps[k].output == ""
    ensures i == 0 ==> LastOutput(steps) == ""
    ensures i > 0 && steps[i - 1].output != "" ==> LastOutput(steps) == steps[i - 1].output
    decreases |steps|
  {
    if i < |steps| {
      LastOutputMeaning(steps[..|steps| - 1], i);
    }
  }

  lemma LastOutputStep(steps: seq<CompileStep>, i: nat)
    requires i < |steps|
    ensures LastOutput(steps[..i + 1]) == if steps[i].output != "" then steps[i].output else LastOutput(steps[..i])
  {
    assert steps[..i + 1][..i] == steps[..i];
  }

  /** The lines of a text, and no lines of no text. */
  predicate LinesOf(lines: seq<string>, text: string) {
    && Join(lines, '\n') == text && (lines == [] <==> text == "")
    && forall i :: 0 <= i < |lines| ==> '\n' !in lines[i]
  }

  lemma SplitGivesLines(text: string)
    requires text != ""
    ensures LinesOf(Split(text, '\n'), text)
  {
    JoinSplit(text, '\n');
    SplitPartsClean(text, '\n');
  }

  /** A step that fails does not stop the ones after it; only the deadline and a template error do. */
  method CompileProject(steps: seq<CompileStep>) returns (compilerOutput: seq<string>, err: Option<Error>)
    ensures err == CompileError(steps)
    ensures LinesOf(compilerOutput, LastOutput(Executed(steps)))
  {
    compilerOutput, err := [], None;
    for i := 0 to |steps|
      invariant forall k :: 0 <= k < i ==> steps[k].templateError.None? && !steps[k].deadlinePassed
      invariant err == if i == 0 then None else steps[i - 1].commandError
      invariant LinesOf(compilerOutput, LastOutput(steps[..i]))
    {
      var step := steps[i];
      if step.templateError.Some? {
        HaltingStep(steps, i);
        err := step.templateError;
        return;
      }
      LastOutputStep(steps, i);
      if step.output != "" {
        SplitGivesLines(step.output);
        compilerOutput := Split(step.output, '\n');
      }
      if step.deadlinePassed {
        HaltingStep(steps, i);
        err := Some(DeadlineExceeded);
        return;
      }
      err := step.commandError;
    }
    CompileErrorMeaning(steps);
    assert steps[..|steps|] == steps;
  }

  // ---- Running

  /** What one run meets: template and start errors, the memory samples in the order received, the
      final maximum RSS, the program's exit status, whether the deadline had passed, and the two
      output files. */
  datatype RunEnv = RunEnv(
    templateError: Option<Error>,
    startError: Option<Error>,
    samples: seq<int>,
    finalMemory: int,
    exitStatus: int,
    deadlinePassed: bool,
    stdout: string,
    stderr: string,
    runtimeNano: int)

  datatype RunExecution = RunExecution(output: seq<string>, errorOutput: seq<string>, memory: int, runtimeNano: int)

  function Max(a: int, b: int): int {
    if a > b then a else b
  }

  /** The running maximum. */
  function Peak(low: int, samples: seq<int>): (m: int)
    ensures m >= low && forall i :: 0 <= i < |samples| ==> samples[i] <= m
    ensures m == low || m in samples
  {
    if samples == [] then low else Max(Peak(low, samples[..|samples| - 1]), samples[|samples| - 1])
  }

  /** How many samples are consumed: through the first above the limit (and above one byte). */
  function Consumed(samples: seq<int>, limit: int): (n: nat)
    ensures n <= |samples|
    ensures forall i :: 0 <= i < n - 1 ==> samples[i] <= Max(1, limit)
    ensures n < |samples| ==> n > 0 && samples[n - 1] > Max(1, limit)
  {
    if samples == [] then 0
    else if samples[0] > Max(1, limit) then 1
    else 1 + Consumed(samples[1..], limit)
  }

  lemma {:induction false} ConsumedIs(samples: seq<int>, limit: int, n: nat)
    requires n <= |samples|
    requires forall i :: 0 <= i < n - 1 ==> samples[i] <= Max(1, limit)
    requires if n > 0 && samples[n - 1] > Max(1, limit) then true else n == |samples|
    ensures Consumed(samples, limit) == n
  {
    if n > 1 {
      ConsumedIs(samples[1..], limit, n - 1);
    }
  }

  /** The verdict on memory, for the whole stream: one byte, a sample or the final maximum is over
      the limit. */
  predicate OverLimit(env: RunEnv, limit: int) {
    1 > limit || env.finalMemory > limit || exists i :: 0 <= i < |env.samples| && env.samples[i] > limit
  }

  lemma OverLimitIsPeak(env: RunEnv, limit: int)
    ensures OverLimit(env, limit) <==> Max(Peak(1, env.samples), env.finalMemory) > limit
  {
  }

  /** The greatest of one byte, the samples and the final maximum. */
  predicate IsPeak(memory: int, env: RunEnv) {
    && memory >= 1 && memory >= env.finalMemory && (forall i :: 0 <= i < |env.samples| ==> memory >= env.samples[i])
    && (memory == 1 || memory == env.finalMemory || memory in env.samples)
  }

  /** The first sample over the limit and over one byte. */
  predicate FirstOver(samples: seq<int>, limit: int, i: nat) {
    && i < |samples| && samples[i] > limit && samples[i] > 1
    && forall k :: 0 <= k < i ==> samples[k] <= limit || samples[k] <= 1
  }

  lemma FirstOverIsLast(samples: seq<int>, limit: int, i: nat)
    requires FirstOver(samples, limit, i)
    ensures LeavesEarly(samples, limit) && Peak(1, samples[..Consumed(samples, limit)]) == samples[i]
  {
    ConsumedIs(samples, limit, i + 1);
    var upTo := samples[..i + 1];
    assert upTo[..i] == samples[..i];
  }

  /** Whether the consumed samples end with one over the limit. */
  predicate LeavesEarly(samples: seq<int>, limit: int) {
    var n := Consumed(samples, limit);
    n > 0 && samples[n - 1] > Max(1, limit)
  }

  /** The loop over the samples: it leaves after the first new maximum over the limit. */
  method WatchMemory(samples: seq<int>, limit: int) returns (memory: int, exceeded: bool)
    ensures exceeded <==> LeavesEarly(samples, limit)
    ensures memory == Peak(1, samples[..Consumed(samples, limit)])
    ensures exceeded ==> limit < memory <= Peak(1, samples)
    ensures !exceeded ==> memory == Peak(1, samples)
  {
    memory := 1;
    for i := 0 to |samples|
      invariant memory == Peak(1, samples[..i])
      invariant forall k :: 0 <= k < i ==> samples[k] <= Max(1, limit)
    {
      assert samples[..i + 1][..i] == samples[..i];
      if samples[i] > memory {
        memory := samples[i];
        if memory > limit {
          ConsumedIs(samples, limit, i + 1);
          return memory, true;
        }
      }
    }
    ConsumedIs(samples, limit, |samples|);
    assert samples[..|samples|] == samples;
    exceeded := false;
  }

  /** The memory a run reports: the first sample that made the loop leave, or else the greatest value. */
  ghost predicate ReportedMemory(env: RunEnv, limit: int, memory: int) {
    && (forall i: nat :: FirstOver(env.samples, limit, i) ==> memory == env.samples[i])
    && ((forall i: nat :: !FirstOver(env.samples, limit, i)) ==> IsPeak(memory, env))
  }

  lemma EarlyMemory(env: RunEnv, limit: int, memory: int)
    requires LeavesEarly(env.samples, limit) && memory == Peak(1, env.samples[..Consumed(env.samples, limit)])
    ensures ReportedMemory(env, limit, memory)
  {
    forall i: nat | FirstOver(env.samples, limit, i) ensures memory == env.samples[i] {
      FirstOverIsLast(env.samples, limit, i);
    }
    var n := Consumed(env.samples, limit);
    assert FirstOver(env.samples, limit, n - 1);
  }

  lemma LateMemory(env: RunEnv, limit: int, memory: int)
    requires !LeavesEarly(env.samples, limit) && memory == Max(Peak(1, env.samples), env.finalMemory)
    ensures ReportedMemory(env, limit, memory)
  {
    forall i: nat ensures !FirstOver(env.samples, limit, i) {
      if FirstOver(env.samples, limit, i) {
        FirstOverIsLast(env.samples, limit, i);
      }
    }
  }

  /** The reported memory is the maximum of what was consumed, joined with the final maximum unless
      the loop left early. LimitExceeded exactly when the maximum of one byte, all samples and the
      final maximum is over the limit; the deadline counts only below the limit, and the exit
      status of the program not at all. */
  method RunProject(env: RunEnv, limit: int) returns (resp: Option<RunExecution>, err: Option<Error>)
    ensures env.templateError.Some? ==> resp.None? && err == env.templateError
    ensures env.templateError.None? ==> resp.Some? && resp.value.runtimeNano == env.runtimeNano
    ensures env.templateError.None? && env.startError.Some? ==>
      err == env.startError && resp.value == RunExecution([], [], 1, env.runtimeNano)
    ensures env.templateError.None? && env.startError.None? ==>
      && (err == Some(LimitExceeded) <==> OverLimit(env, limit))
      && (!OverLimit(env, limit) ==> err == if env.deadlinePassed then Some(DeadlineExceeded) else None)
      && ReportedMemory(env, limit, resp.value.memory)
      && (resp.value.memory > limit <==> OverLimit(env, limit))
      && resp.value.output == (if OverLimit(env, limit) then [] else Truncate(ScanAll(env.stdout)))
      && resp.value.errorOutput == (if OverLimit(env, limit) then [] else Truncate(ScanAll(env.stderr)))
  {
    if env.templateError.Some? {
      return None, env.templateError;
    }
    if env.startError.Some? {
      return Some(RunExecution([], [], 1, env.runtimeNano)), env.startError;
    }
    OverLimitIsPeak(env, limit);
    var memory, exceeded := WatchMemory(env.samples, limit);
    if exceeded {
      EarlyMemory(env, limit, memory);
      return Some(RunExecution([], [], memory, env.runtimeNano)), Some(LimitExceeded);
    }
    if env.finalMemory > memory {
      memory := env.finalMemory;
    }
    LateMemory(env, limit, memory);
    if memory > limit {
      return Some(RunExecution([], [], memory, env.runtimeNano)), Some(LimitExceeded);
    }
    var outputLines := ReadLines(env.stdout);
    var outputErrLines := ReadLines(env.stderr);
    resp := Some(RunExecution(outputLines, outputErrLines, memory, env.runtimeNano));
    err := if env.deadlinePassed then Some(DeadlineExceeded) else None;
  }

  // ---- The whole runner

  /** `main` of the runner. A template error of the run command leaves a nil result, which is then
      dereferenced. A compile error is classified from the run error, which is still nil there. */
  method RunnerMain(steps: seq<CompileStep>, compileNano: int, env: RunEnv, limit: int)
    returns (r: Outcome<ExecutionResponse>)
    ensures r.Panic? <==> CompileError(steps).None? && env.templateError.Some?
    ensures r.Ok? ==> Join(r.value.compilerOutput, '\n') == LastOutput(Executed(steps))
    ensures r.Ok? ==> r.value.compileTime == if steps == [] then 0 else compileNano
    ensures r.Ok? && CompileError(steps).Some? ==>
      && r.value.status == RUN_TIME_ERROR
      && r.value.output == [] && r.value.outputErr == [] && r.value.memory == 0 && r.value.runtime == 0
    ensures r.Ok? && CompileError(steps).None? && env.startError.Some? ==>
      && (env.startError.value.LimitExceeded? ==> r.value.status == MEMORY_CONSTRAINT_EXCEEDED)
      && (env.startError.value.DeadlineExceeded? ==> r.value.status == TIME_LIMIT_EXCEEDED)
      && (env.startError.value.OtherError? ==> r.value.status == RUN_TIME_ERROR)
      && r.value.output == [] && r.value.outputErr == [] && r.value.memory == 1 && r.value.runtime == env.runtimeNano
    ensures r.Ok? && CompileError(steps).None? && env.startError.None? ==>
      && (OverLimit(env, limit) <==> r.value.status == MEMORY_CONSTRAINT_EXCEEDED)
      && (!OverLimit(env, limit) ==> (env.deadlinePassed <==> r.value.status == TIME_LIMIT_EXCEEDED))
      && (!OverLimit(env, limit) && !env.deadlinePassed ==> r.value.status == FINISHED)
      && ReportedMemory(env, limit, r.value.memory)
      && r.value.output == (if OverLimit(env, limit) then [] else Truncate(ScanAll(env.stdout)))
      && r.value.outputErr == (if OverLimit(env, limit) then [] else Truncate(ScanAll(env.stderr)))
      && r.value.runtime == env.runtimeNano
  {
    var responseCode := FINISHED;
    var execution := Some(RunExecution([], [], 0, 0));
    var runtimeErr: Option<Error> := None;
    var compilerOutput, compileErr := CompileProject(steps);
    if compileErr.Some? {
      responseCode := DetermineExecutionError(runtimeErr);
    }
    if responseCode == FINISHED {
      execution, runtimeErr := RunProject(env, limit);
      if runtimeErr.Some? {
        responseCode := DetermineExecutionError(runtimeErr);
      }
    }
    if execution.None? {
      return Panic;
    }
    r := Ok(ExecutionResponse(if steps == [] then 0 else compileNano, compilerOutput,
                              execution.value.output, execution.value.errorOutput,
                              execution.value.runtimeNano, execution.value.memory, responseCode));
  }
}
