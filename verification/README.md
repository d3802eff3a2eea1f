# Cars: a verified model of the sandbox loader and runner

Cars takes untrusted programs from a queue, runs each in its own Docker container under a time and a
memory limit, compares the output with what a test expects, and records the result. This project
models the parts of it that are hard to get right and proves, for every input, every schedule and
every reachable state, what they do.

* `SlotProtocol`, `SlotTheorems`: the loader as a transition system. Any number of handlers take a
  slot from the bounded `limiter`, run a container, register it, wait for `complete` or a timer, read
  the response, give a slot back and deregister; the event goroutine looks containers up and drives
  them; Docker creates, removes and announces. Every action is one step and all interleavings are
  covered. Docker is trusted for three things only: ids are new, ids are at least ten bytes long, and
  destroy is announced at most once, after the container is gone.
* `SlotTraces`: on every schedule each container is the replay of the events it heard, so a handler's
  verdict is that of its trace and of the test its request arrived with.
* `SlotRuns`, `Starvation`: whole calls as runs of those actions, and exactly when a handler can still
  be woken and a slot can still be had, over all continuations.
* `Sandbox`, `Manager`, `ManagerRuns`: one container's state machine over event traces, the verdict on
  the test, the container and manager objects, and the proof that a manager object living through any
  history of uninterrupted calls is in a state of the transition system.
* `Lines`, `Runner`, `Requests`: standard input, the compile loop, the memory watch, line scanning
  with its limits, the reported status, and one request from message to verdict and uploads.
* `Sampler`: sampler, waiter and consumer of the memory samples, interleaved.
* `WriteFiles`, `Paths`, `SqsPoller`, `ExecutionRow`: the file fan-out and where its files go, the SQS
  batch loop, and the race between the API and the loader for the execution row.
* `ProcStat`, `Status`, `Decimal`, `Text`: reading `/proc/[pid]/stat`, the generated status names,
  decimal numbers, and `strings.Split`/`strings.Join`.

Go panics (a nil dereference, a second close, a send on a closed channel, an index out of range) are
values or states of the model, and the theorems say when they happen; mostly never. A Go string is a
byte sequence, and each `char` stands for one byte. Numbers are unbounded integers; int64 saturation
and wrap-around are written out where the code meets them (`Decimal.ParseInt64`, `ProcStat.Wrap64`).
`bufio.ScanLines`, `strconv.ParseInt` and `strconv.FormatInt` are written out as functions with their
documented behaviour. Docker calls, process execution, template expansion, clocks, the kernel's
process table and database success are inputs of the model.

What the code does where its comments or its intent suggest otherwise:

* The limiter is said to be popped when the container is removed. A failed `Run` and a timed-out
  handler never pop it, so their slots are lost (`SlotTheorems.SlotConservation`).
* A container that is destroyed before its handler stored it has its destroy event dropped
  (`Starvation.LookupLosesIffNotStored`). A handler can still be woken if and only if that has not
  happened to it and the event loop has not stopped before closing its channel
  (`Starvation.WakesIffHeard`).
* A waiting handler can still get a slot if and only if the handlers with a lost slot or no hope of
  being woken are fewer than the slots (`Starvation.SlotIffNotAllDoomed`); otherwise the loader is stuck
  for good (`Starvation.AllSlotsLostIsForever`). In a loader of capacity one a single fast container is
  enough (`Starvation.FastContainerStarvesLoader`).
* Different file ids and names can name the same path (`Paths.PairsShareAPath`), and then the result of
  the concurrent writes depends on the schedule (`WriteFiles.DeterministicIffPathsDistinct`); it can even
  be a text that nobody wrote (`WriteFiles.MixedContent`). A double dot in a name leaves the execution's
  folder (`Paths.SpecialNames`).
* A compile error is classified from the run error, which is still nil, so every compile failure and
  compile timeout is reported as a run time error; a failing compile step does not stop the next ones.
* The program's exit status is ignored: a program that crashes within its limits is Finished
  (`Requests.ExitStatusIgnored`).
* A template error of the run command leaves a nil result that is dereferenced (`Runner.RunnerMain`).
* `SqsQueue.Stop` sets a flag on a copy, so the poller never stops (`SqsPoller.StopHasNoEffect`).
* The stat reader splits at every space, so a command name with a space hides the resident set size
  (`ProcStat.ReadsRssIffNameHasNoSpace`), and the exit code is always read as 0.
* If the API inserts the row after the loader's last update, the row stays NotRan
  (`ExecutionRow.RaceOutcome`).

`dafny verify dfyconfig.toml` checks everything.

## Model

| member | source | states |
|---|---|---|
| SlotProtocol.StepKeepsInv | internal/sandbox/manager.go:43-118 | every action of a handler, the event loop or Docker keeps the joint invariant of limiter, map, Docker, event stream and containers |
| SlotProtocol.NoPanic | internal/sandbox/sandbox.go:316-326 | in an invariant state no action panics: cleanup finds an open channel, a woken handler its own container and a readable response, the event loop an id long enough |
| SlotProtocol.ChangeKeepsInv | internal/sandbox/manager.go:66-67 | a change of one handler that balances slots, map entry and pending destroy keeps the invariant |
| SlotTheorems.LiveContainersBounded | internal/sandbox/manager.go:43-69 | on every schedule the containers created and not announced destroyed are at most the tokens in the limiter, which are at most its capacity |
| SlotTheorems.SlotConservation | internal/queue/queue.go:122-147 | on every schedule the limiter's length is the handlers between send and receive plus the failed runs plus the timed-out handlers |
| SlotTheorems.HandlersAreArrivals | internal/queue/queue.go:104-119 | on every schedule there is one handler per arrived request, in order, with the request and the test it arrived with |
| SlotTheorems.EventsInOrder | internal/sandbox/manager.go:94-113 | on every schedule the events still in the stream are those Docker sent less the ones looked at, in the order sent |
| SlotTheorems.WokenHandlerProceeds | internal/queue/queue.go:149-171 | a handler woken by complete finds its own container, reads a response whose verdict on the test it arrived with is passed exactly if the run finished with the expected output, and its receive never blocks |
| SlotTraces.ContainerIsReplay | internal/sandbox/sandbox.go:344-404 | on every schedule a handler's container is the replay of exactly the events it heard, until its run fails or its response is read |
| SlotTraces.WokenVerdict | internal/sandbox/sandbox.go:406-441 | from the schedule alone: a woken handler's container heard one destroy, its response is the file read then, and the arrived test passed exactly if the last status heard is Finished and that file's output is the expected one |
| SlotTheorems.NothingCrashes | internal/sandbox/manager.go:100-117 | no reachable state has a panicked handler or event loop |
| SlotTheorems.SendNeverBlocks | internal/sandbox/manager.go:46 | while the handlers contending for slots and the lost slots fit the capacity, the send is enabled |
| Starvation.WakesIffHeard | internal/sandbox/manager.go:100-113 | in every reachable state, for a handler that holds a slot and is not past its wait: some continuation wakes it if and only if its destroy was not lost and the event loop has not stopped before closing its channel |
| Starvation.LookupLosesIffNotStored | internal/sandbox/manager.go:111 | looking up a container's destroy loses it if and only if its id is not in the map, that is, if and only if its handler is still before the store |
| Starvation.SlotIffNotAllDoomed | internal/sandbox/manager.go:46 | in every reachable state a handler waiting for a slot can get one on some continuation if and only if the handlers with a lost slot, a lost destroy or a stopped event loop are fewer than the capacity |
| Starvation.AllSlotsLostIsForever | internal/queue/queue.go:138-147 | once as many handlers are doomed as there are slots, in every continuation the limiter is full, only doomed handlers hold slots, no send is enabled and every waiter still waits |
| SlotTheorems.CompleteClosedAtMostOnce | internal/sandbox/sandbox.go:170-184 | on every run the closes of a container's channel, over both failure paths and the event path, number exactly whether it is closed |
| SlotTheorems.ClosedResponseIsFinal | internal/sandbox/sandbox.go:396-404 | after complete is closed no continuation replaces the response; a missing one can only become the zero response |
| Starvation.FastContainerStarvesLoader | internal/sandbox/manager.go:47-53 | the run exists in which one container is gone before it is stored, and no continuation of it gives out a slot |
| ManagerRuns.AddContainer | internal/sandbox/manager.go:43-55 | on a manager that represents a state, AddContainer blocks exactly when the send does; otherwise the manager represents the state its actions lead to, for a started container and for both failures |
| ManagerRuns.GetResponse | internal/sandbox/manager.go:71-77 | for a woken handler the call is the action ReadResponse: never nil, never a panic, and the response is the one the protocol's handler carries on |
| ManagerRuns.RemoveContainer | internal/sandbox/manager.go:57-69 | for a handler past its upload the call never blocks and is the actions ReleaseSlot and Delete |
| ManagerRuns.HandleMessage | internal/sandbox/manager.go:110-113 | the next event is handled without a panic and is the event loop's one, two or four actions on it, with the effect of one atomic event |
| ManagerRuns.Live | internal/sandbox/manager.go:26-118 | a manager object living through any legal history of calls represents, at its end, a state that a schedule of the protocol reaches |
| ManagerRuns.HistoryIsSchedule | internal/sandbox/manager.go:43-118 | every history of uninterrupted calls is a schedule of atomic actions |
| Sandbox.ReplayMeaning | internal/sandbox/sandbox.go:344-404 | for every event trace: panic exactly from the second destroy on; otherwise closed exactly after the destroy, with the file it read as response and the last status set |
| Sandbox.EventsByName | internal/sandbox/sandbox.go:358-404 | each Docker action by name: the status it sets, the effect of the destroy with and without a file, and that other actions change nothing |
| Sandbox.ReplaySettled | internal/sandbox/sandbox.go:328-342 | on every trace a status of Finished comes with a response that says Finished |
| Sandbox.VerdictOfTrace | internal/sandbox/sandbox.go:406-441 | for every trace with at most one destroy the response is read without nil dereference, and the test passed exactly if finished, a test exists and the output equals the expected list |
| Sandbox.DestroyAfterTrace | internal/sandbox/sandbox.go:344-404 | whatever events came before, the destroy leaves the file it read as response, a closed channel, and a status of Finished exactly if the file says so |
| Sandbox.Container.AddDockerEventMessage | internal/sandbox/sandbox.go:344-373 | the object follows the state machine, keeps the event list, and panics exactly on a short id or a second destroy |
| Sandbox.Container.HandleContainerRemoved | internal/sandbox/sandbox.go:396-404 | status from the file, response recorded, then the channel closed |
| Sandbox.Container.CloseComplete | internal/sandbox/sandbox.go:316-326 | closing a closed channel panics |
| Sandbox.Container.ReadResponse | internal/sandbox/sandbox.go:407-441 | the comparison loop gives the verdict of sequence equality; a missing response becomes the zero one |
| Lines.ReadLines | cmd/services/cars-runner/main.go:242-255 | the scanning loop keeps of the text's own lines the first thousand, one carriage return less each, up to the first of 64 KiB or more |
| Lines.ScanFollowsRaw | cmd/services/cars-runner/main.go:242-243 | the scan is the text's lines less one carriage return each, up to the first line that does not fit the buffer |
| Lines.UploadIsOutputIffClean | internal/queue/queue.go:151-159 | the uploaded text is the output less one trailing newline if and only if it has at most 1000 lines, none too long and none ending in a carriage return |
| Lines.KeptLinesArePrefix | cmd/services/cars-runner/main.go:238-255 | for any text the kept lines are exactly the first 1000 of the scan, without newlines |
| Lines.CRLFLinesComeBack | cmd/services/cars-runner/main.go:242-249 | lines ended by carriage return and newline are scanned back to the items if and only if no item holds a newline and each is shorter than 65535 |
| Lines.WriteStandardInput | internal/sandbox/sandbox.go:230-236 | the input file is every item followed by a newline |
| Lines.EchoIsIdentityIffClean | internal/sandbox/sandbox.go:230-236 | copying the input back gives the items if and only if there are at most 1000 and each is short, without newline and without final carriage return |
| Runner.CompileProject | cmd/services/cars-runner/main.go:50-109 | the error is the halting one or the last step's, and the joined compiler output is exactly the last non-empty output of an executed step |
| Runner.CompileErrorMeaning | cmd/services/cars-runner/main.go:93-106 | without template errors the result is the deadline if it passed after any step, else the last step's |
| Runner.HaltingStep | cmd/services/cars-runner/main.go:76-104 | the first step with a template error or a passed deadline ends the loop with that error, before or after it is executed |
| Runner.LastOutputMeaning | cmd/services/cars-runner/main.go:91-93 | the compiler output is that of the last step that printed something, or nothing |
| Runner.WatchMemory | cmd/services/cars-runner/main.go:183-204 | leaves early exactly at the first sample over the limit; the memory is the running maximum of the consumed prefix |
| Runner.RunProject | cmd/services/cars-runner/main.go:118-288 | LimitExceeded if and only if the maximum of one byte, all samples and the final RSS is over the limit; memory before deadline; lines only within the limit |
| Runner.RunnerMain | cmd/services/cars-runner/main.go:290-351 | case by case for compile error, start error and started run: the status (over memory first, then the deadline, else Finished), the outputs, the memory (first sample over the limit, else the greatest value), the times; and the nil dereference exactly on a run template error |
| Requests.HandleRequest | internal/queue/queue.go:104-179 | from message to result, for any events the container emits before its destroy: status case by case, verdict, and all three uploads for every status; passed if and only if a test exists, the run finished and its first 1000 scanned lines are the expected list |
| Requests.FinishedMeans | cmd/services/cars-runner/main.go:322-334 | a request is Finished if and only if the program was compiled and started and stayed within memory and time |
| Requests.Collect | internal/sandbox/sandbox.go:344-441 | for any events before the destroy: the result file becomes the response, a missing file the zero response, and the verdict compares its output |
| Requests.CorrectResultLaws | internal/sandbox/sandbox.go:412-425 | of every result: the upload law, more than 1000 expected lines never pass, and the echo law for a copying program |
| Requests.EchoObeysLaw | internal/sandbox/sandbox.go:412-425 | copied input passes if and only if expected equals input when the items are clean, and a test expecting its own input passes if and only if they are |
| Requests.ExitStatusIgnored | cmd/services/cars-runner/main.go:170-173 | a result is correct for a run if and only if it is correct for the run with any other exit status |
| Sampler.StreamIsFaithful | internal/pid/pid.go:369-402 | on every schedule received samples are a prefix of the produced ones lacking at most the last, nothing is sent after close, and the process state is read only after Wait returned |
| Sampler.ConsumerIsRunProject | cmd/services/cars-runner/main.go:183-204 | the consumer's memory is the maximum of what it received and it left exactly after the first sample over the limit |
| Sampler.SamplerExits | internal/pid/pid.go:375-398 | once the consumer left and pidDone is closed the sampler makes at most four more steps and is never stuck before it exits |
| Sampler.AlwaysCanFinish | cmd/services/cars-runner/main.go:162-209 | every reachable state after the program exited has a continuation of at most nine steps in which sampler, waiter and consumer all come to their end |
| WriteFiles.EveryScheduleTerminates | internal/files/local.go:58-84 | on every schedule no panic, no blocked report, at most 8n+3 steps, and no deadlock before the return |
| WriteFiles.ReturnMeaning | internal/files/local.go:76-83 | the returned errors are as a multiset exactly those of the failed writes; with distinct paths each file holds what its write left and nothing else changed |
| WriteFiles.OutcomeIsDeterministic | internal/files/local.go:64-74 | with distinct paths any two schedules end with the same store and the same errors as multisets |
| WriteFiles.DeterministicIffPathsDistinct | internal/files/local.go:36-50 | for given paths: every job on them, whatever its data and failures, has one final store on all schedules if and only if the paths are pairwise different |
| WriteFiles.MixedContent | internal/files/local.go:43-53 | two files with one path can leave the short data followed by the rest of the long |
| Paths.PairsShareAPath | internal/files/local.go:36-37 | the path depends only on what id and name spell out together: a slash may be moved from one to the other |
| Paths.PlainPath | internal/files/local.go:36-37 | a plain id and a plain name give the root's parts followed by the id and the name |
| Paths.SpecialNames | internal/files/local.go:36-37 | a double dot leaves the folder, a dot or an empty name is the folder |
| WriteFiles.Run | internal/files/local.go:58-84 | under any scheduler the call returns with those errors; with distinct paths a successful write leaves the file's data, a failed write its partial data, a failed open the old content, and all other files are unchanged |
| WriteFiles.ReportNeverBlocks | internal/files/local.go:62-72 | a worker with an error always finds room in the channel |
| SqsPoller.InFlightBounded | internal/queue/sqs.go:44-96 | in-flight handlers never exceed the current batch nor the configured maximum, and are zero when the next receive starts |
| SqsPoller.DeletedExactlyOnce | internal/queue/sqs.go:64-95 | each non-empty message gets exactly one delete attempt, after its handler returned, before the next receive; empty ones none |
| SqsPoller.ReceivedInOrder | internal/queue/sqs.go:52-66 | the poller's messages are the received ones, none lost, changed or reordered |
| SqsPoller.AlwaysReceivesAgain | internal/queue/sqs.go:44-96 | from every reachable state the poller can come to its next receive with every non-empty message handled and its delete attempted once |
| SqsPoller.StopHasNoEffect | internal/queue/sqs.go:113-119 | no number of Stop calls raises the poller's flag or ends it |
| ExecutionRow.FinalRow | internal/api/consumer/server.go:97-109 | on every interleaving the row ends as inserted with the loader's later updates, and can then change no more |
| ExecutionRow.RaceOutcome | internal/queue/queue.go:121-179 | field by field: insert before the last update gives the run's status name, test status, truncated milliseconds and megabytes, or NonDeterministicError or Running; otherwise the row stays NotRan and TestNotRan |
| ExecutionRow.StatusSeen | internal/queue/queue.go:121-136 | in every reachable state: no row before the insert, NotRan until an update hits it, then Created, Running or the end the loader has come to |
| ExecutionRow.UpdateLaws | internal/repository/execution.go:27-30 | an update with every column set replaces the row, one with none leaves it |
| ExecutionRow.TestNotRanMeansInsertedLast | internal/queue/queue.go:173-179 | after a completed run the row says TestNotRan if and only if the insert came last |
| ExecutionRow.RunSchedule | internal/repository/execution.go:22-42 | two services calling one repository in any order the race allows leave exactly the rows of the race: no insert fails, other rows stay, and the row is the inserted one with the updates made after the insert |
| ProcStat.StatRoundTrip | internal/pid/pid.go:279-341 | a printed record whose name has no space is read back field by field, each number saturated on its own |
| ProcStat.MemoryIsRss | internal/pid/pid.go:349-352 | the memory is RSS times page size when that fits an int64 |
| ProcStat.MemoryIsField24 | internal/pid/pid.go:286-352 | for any text: a panic exactly below 52 fields, and the memory is field 24 times the page size, wrapped to int64 |
| ProcStat.SpacesHideRss | internal/pid/pid.go:286-312 | with a space in the name the value read does not depend on the real RSS |
| ProcStat.ReadsRssIffNameHasNoSpace | internal/pid/pid.go:286-312 | the reader is right for every process of that name if and only if the name has no space |
| Decimal.ParsePrint | internal/pid/pid.go:274-277 | reading a printed integer gives it back, saturated to int64 |
| Decimal.ParseMeaning | internal/pid/pid.go:274-277 | for any text: an optional sign and digits give that number, saturated; anything else gives 0 |
| Status.NamesInOrder | internal/sandbox/containerstatus_string.go:25 | the name string is the twelve names one after the other and nothing else |
| Status.TableInRange | internal/sandbox/containerstatus_string.go:25-27 | the index table cuts the name string into the twelve names |
| Status.CodesHaveNames | internal/sandbox/containerstatus_string.go:11-22 | every status code prints as its own name |
| Status.StatusStringInjective | internal/sandbox/containerstatus_string.go:29-34 | no two integers have the same status text |

## Left out

- Docker, S3, NSQ, SQS and Postgres clients: foreign calls, modelled as outcomes, event sources or maps.
- JSON of runner.json, runner-out.json and queue messages: assumed to carry valid values faithfully; an unreadable or bad file is any or no response.
- `html/template` expansion, process execution, kill behaviour and clocks: oracles; `time.After` may fire at any time.
- Write errors of `prepare`, directory removal in `cleanup` and the working directory mount: file system plumbing.
- internal/files/s3.go: the same fan-out as the local handler.
- internal/sandbox/unix/unix.go: a composition of string functions, an easy claim.
- `ContainerTestStatus.String`: a table like the modelled one; its four names are used as constants.
- Profiles, gVisor selection, the compiler table, templates and `GetSupportedLanguages`: finite tables.
- Redelivery of a message after a failed handler, and several runs of one execution.
- Names and folders of the uploaded files: taken from the compiler table.
- Megabyte values are exact reals, not float64.
- Runner.RunProject: takes the final RSS in bytes as given, without the multiplication by 1024.
- ExecutionRow.RaceOutcome: database operations succeed and the submitted message reaches one loader once.
- Paths: the local root is an absolute path; symbolic links and directories made by other files of the call are outside.
- ManagerRuns: relates calls that run without interruption; interrupted calls are covered by the protocol itself.
