/** `LocalFiles.WriteFiles`: one goroutine per file, a wait group, and a buffered channel as wide as
    the number of files that carries the errors back. All interleavings of the workers and the
    caller are modelled; how each write ends is decided per file by `results`. */
module WriteFiles {
  import opened Text
  import opened Paths

  datatype File = File(id: string, name: string, data: string)

  /** How `WriteFile` ends; a failed write may leave part of the data behind. */
  datatype Result = Written | OpenFails(err: string) | WriteFails(err: string, partial: string)

  /** What the file system holds, by path. */
  type Store = map<string, string>

  datatype WorkerPc = NotSpawned | Opening | Writing | Reporting | Finishing | Gone

  datatype MainPc = Spawning(next: nat) | Closing | Draining | Returned

  /** One file as the worker writes it. */
  datatype Target = Target(path: string, data: string)

  datatype Job = Job(targets: seq<Target>, results: seq<Result>, initial: Store)

  datatype State = State(
    main: MainPc,
    workers: seq<WorkerPc>,
    waitGroup: int,
    queue: seq<string>,
    errs: seq<string>,
    store: Store,
    crashed: bool)

  /** The job of writing `files` under `root`. */
  function JobOf(root: string, files: seq<File>, results: seq<Result>, initial: Store): Job {
    Job(seq(|files|, i requires 0 <= i < |files| => Target(FilePath(root, files[i].id, files[i].name), files[i].data)),
        results, initial)
  }

  ghost predicate ValidJob(j: Job) {
    |j.targets| == |j.results|
  }

  function Init(j: Job): State {
    State(Spawning(0), seq(|j.targets|, _ => NotSpawned), 0, [], [], j.initial, false)
  }

  datatype Label = Spawn | Open(i: nat) | Write(i: nat) | Report(i: nat) | Finish(i: nat) | Await | Close | Receive | Return

  predicate WorkerAt(s: State, i: nat, pc: WorkerPc) {
    i < |s.workers| && s.workers[i] == pc
  }

  /** A send on the channel blocks when it is full. */
  predicate Enabled(j: Job, s: State, l: Label) {
    match l
    case Spawn => s.main.Spawning? && s.main.next < |s.workers|
    case Open(i) => WorkerAt(s, i, Opening)
    case Write(i) => WorkerAt(s, i, Writing)
    case Report(i) => WorkerAt(s, i, Reporting) && |s.queue| < |j.targets|
    case Finish(i) => WorkerAt(s, i, Finishing)
    case Await => s.main.Spawning? && s.main.next == |s.workers| && s.waitGroup == 0
    case Close => s.main.Closing?
    case Receive => s.main.Draining? && s.queue != []
    case Return => s.main.Draining? && s.queue == []
  }

  function Key(j: Job, i: nat): string
    requires i < |j.targets|
  {
    j.targets[i].path
  }

  /** A write starts at the beginning of the file and leaves what is there beyond its end. */
  function Overwritten(store: Store, key: string, data: string): Store {
    var before := if key in store then store[key] else "";
    store[key := if |before| <= |data| then data else data + before[|data|..]]
  }

  /** Sending on a closed channel, or more Done than Add, panics. */
  function Step(j: Job, s: State, l: Label): State
    requires ValidJob(j) && |s.workers| == |j.targets| && Enabled(j, s, l)
  {
    match l
    case Spawn =>
      s.(main := Spawning(s.main.next + 1), workers := s.workers[s.main.next := Opening], waitGroup := s.waitGroup + 1)
    case Open(i) =>
      if j.results[i].OpenFails? then s.(workers := s.workers[i := Reporting])
      else s.(workers := s.workers[i := Writing], store := s.store[Key(j, i) := ""])
    case Write(i) =>
      if j.results[i].WriteFails?
      then s.(workers := s.workers[i := Reporting], store := Overwritten(s.store, Key(j, i), j.results[i].partial))
      else s.(workers := s.workers[i := Finishing], store := Overwritten(s.store, Key(j, i), j.targets[i].data))
    case Report(i) =>
      if j.results[i].Written? then s.(crashed := true) else
      s.(workers := s.workers[i := Finishing], queue := s.queue + [j.results[i].err],
         crashed := s.crashed || s.main.Draining? || s.main.Returned?)
    case Finish(i) =>
      s.(workers := s.workers[i := Gone], waitGroup := s.waitGroup - 1, crashed := s.crashed || s.waitGroup <= 0)
    case Await => s.(main := Closing)
    case Close => s.(main := Draining)
    case Receive => s.(queue := s.queue[1..], errs := s.errs + [s.queue[0]])
    case Return => s.(main := Returned)
  }

  function Exec(j: Job, s: State, schedule: seq<Label>): Option<State>
    requires ValidJob(j) && |s.workers| == |j.targets|
    decreases |schedule|
  {
    if schedule == [] then Some(s)
    else if Enabled(j, s, schedule[0]) then Exec(j, Step(j, s, schedule[0]), schedule[1..])
    else None
  }

  ghost predicate Reaches(j: Job, schedule: seq<Label>, t: State)
    requires ValidJob(j)
  {
    Exec(j, Init(j), schedule) == Some(t)
  }

  // ---- Counting

  predicate Active(w: WorkerPc) {
    !w.NotSpawned? && !w.Gone?
  }

  function CountActive(ws: seq<WorkerPc>): nat {
    if ws == [] then 0 else (if Active(ws[0]) then 1 else 0) + CountActive(ws[1..])
  }

  lemma {:induction false} CountActiveUpdate(ws: seq<WorkerPc>, i: nat, w: WorkerPc)
    requires i < |ws|
    ensures CountActive(ws[i := w]) == CountActive(ws) - (if Active(ws[i]) then 1 else 0) + (if Active(w) then 1 else 0)
  {
    if i == 0 {
      assert ws[i := w][1..] == ws[1..];
    } else {
      CountActiveUpdate(ws[1..], i - 1, w);
      assert ws[i := w][1..] == ws[1..][i - 1 := w];
    }
  }

  lemma {:induction false} NoneActive(ws: seq<WorkerPc>, i: nat)
    requires i < |ws| && CountActive(ws) == 0
    ensures !Active(ws[i])
  {
    if i > 0 {
      NoneActive(ws[1..], i - 1);
    }
  }

  predicate HasReported(w: WorkerPc) {
    w.Finishing? || w.Gone?
  }

  function ErrorOf(w: WorkerPc, r: Result): multiset<string> {
    if HasReported(w) && !r.Written? then multiset{r.err} else multiset{}
  }

  /** The errors of the workers that are past their report. */
  function Reported(ws: seq<WorkerPc>, results: seq<Result>): multiset<string>
    requires |ws| == |results|
  {
    if ws == [] then multiset{} else ErrorOf(ws[0], results[0]) + Reported(ws[1..], results[1..])
  }

  lemma {:induction false} ReportedUpdate(ws: seq<WorkerPc>, results: seq<Result>, i: nat, w: WorkerPc)
    requires |ws| == |results| && i < |ws| && !HasReported(ws[i])
    ensures Reported(ws[i := w], results) == Reported(ws, results) + ErrorOf(w, results[i])
  {
    if i == 0 {
      assert ws[i := w][1..] == ws[1..];
    } else {
      ReportedUpdate(ws[1..], results[1..], i - 1, w);
      assert ws[i := w][1..] == ws[1..][i - 1 := w];
    }
  }

  lemma {:induction false} ReportedSame(ws: seq<WorkerPc>, results: seq<Result>, i: nat, w: WorkerPc)
    requires |ws| == |results| && i < |ws| && ErrorOf(ws[i], results[i]) == ErrorOf(w, results[i])
    ensures Reported(ws[i := w], results) == Reported(ws, results)
  {
    if i == 0 {
      assert ws[i := w][1..] == ws[1..];
    } else {
      ReportedSame(ws[1..], results[1..], i - 1, w);
      assert ws[i := w][1..] == ws[1..][i - 1 := w];
    }
  }

  /** Fewer errors than workers while one worker has yet to report. */
  lemma {:induction false} ReportedSize(ws: seq<WorkerPc>, results: seq<Result>)
    requires |ws| == |results|
    ensures |Reported(ws, results)| <= |ws|
    ensures forall i :: 0 <= i < |ws| && !HasReported(ws[i]) ==> |Reported(ws, results)| < |ws|
  {
    if ws != [] {
      ReportedSize(ws[1..], results[1..]);
      forall i | 0 <= i < |ws| && !HasReported(ws[i]) ensures |Reported(ws, results)| < |ws| {
        if i > 0 {
          assert !HasReported(ws[1..][i - 1]);
        }
      }
    }
  }

  /** All the errors there are. */
  function AllErrors(results: seq<Result>): multiset<string> {
    if results == [] then multiset{}
    else (if results[0].Written? then multiset{} else multiset{results[0].err}) + AllErrors(results[1..])
  }

  lemma {:induction false} AllGoneAllReported(ws: seq<WorkerPc>, results: seq<Result>)
    requires |ws| == |results| && forall i :: 0 <= i < |ws| ==> ws[i].Gone?
    ensures Reported(ws, results) == AllErrors(results)
  {
    if ws != [] {
      AllGoneAllReported(ws[1..], results[1..]);
    }
  }

  // ---- Invariant

  ghost predicate WorkersInv(j: Job, s: State) {
    && |s.workers| == |j.targets| == |j.results|
    && !s.crashed
    && s.waitGroup == CountActive(s.workers)
    && (s.main.Spawning? ==> s.main.next <= |s.workers|)
    && (s.main.Spawning? ==>
          forall i :: 0 <= i < |s.workers| ==> (s.workers[i].NotSpawned? <==> s.main.next <= i))
    && (!s.main.Spawning? ==> forall i :: 0 <= i < |s.workers| ==> s.workers[i].Gone?)
    && (forall i :: 0 <= i < |s.workers| ==>
          && (s.workers[i].Reporting? ==> !j.results[i].Written?)
          && (s.workers[i].Writing? ==> !j.results[i].OpenFails?))
  }

  ghost predicate ErrorsInv(j: Job, s: State)
    requires |s.workers| == |j.results|
  {
    && multiset(s.queue) + multiset(s.errs) == Reported(s.workers, j.results)
    && (s.main.Spawning? || s.main.Closing? ==> s.errs == [])
    && (s.main.Returned? ==> s.queue == [])
  }

  ghost predicate Inv(j: Job, s: State) {
    WorkersInv(j, s) && ErrorsInv(j, s)
  }

  /** One spawned worker moves on to `w`; the store and the channel do not matter here. */
  lemma MoveKeepsWorkers(j: Job, s: State, t: State, i: nat, w: WorkerPc)
    requires WorkersInv(j, s) && i < |s.workers| && Active(s.workers[i]) && !w.NotSpawned?
    requires s.main.Spawning? && t.main == s.main && t.workers == s.workers[i := w] && !t.crashed
    requires t.waitGroup == s.waitGroup - if Active(w) then 0 else 1
    requires (w.Reporting? ==> !j.results[i].Written?) && (w.Writing? ==> !j.results[i].OpenFails?)
    ensures WorkersInv(j, t)
  {
    CountActiveUpdate(s.workers, i, w);
  }

  /** While a worker is active the caller has not got past the wait group. */
  lemma ActiveMeansSpawning(j: Job, s: State, i: nat)
    requires WorkersInv(j, s) && i < |s.workers| && Active(s.workers[i])
    ensures s.main.Spawning? && s.waitGroup > 0
  {
    if s.waitGroup == 0 {
      NoneActive(s.workers, i);
    }
  }

  lemma WorkerStepKeepsWorkers(j: Job, s: State, l: Label)
    requires WorkersInv(j, s) && Enabled(j, s, l) && (l.Open? || l.Write? || l.Report? || l.Finish?)
    ensures WorkersInv(j, Step(j, s, l))
  {
    ActiveMeansSpawning(j, s, l.i);
    MoveKeepsWorkers(j, s, Step(j, s, l), l.i, Step(j, s, l).workers[l.i]);
  }

  /** A worker that moves without reporting leaves the errors as they are. */
  lemma QuietMoveKeepsErrors(j: Job, s: State, t: State, i: nat, w: WorkerPc)
    requires |s.workers| == |j.results| && i < |s.workers| && ErrorsInv(j, s)
    requires ErrorOf(s.workers[i], j.results[i]) == ErrorOf(w, j.results[i])
    requires t.workers == s.workers[i := w] && t.main == s.main && t.queue == s.queue && t.errs == s.errs
    ensures ErrorsInv(j, t)
  {
    ReportedSame(s.workers, j.results, i, w);
  }

  lemma OpenMoves(j: Job, s: State, i: nat)
    requires |s.workers| == |j.targets| == |j.results| && Enabled(j, s, Open(i))
    ensures var t := Step(j, s, Open(i));
      && t.workers == s.workers[i := if j.results[i].OpenFails? then Reporting else Writing]
      && t.main == s.main && t.queue == s.queue && t.errs == s.errs
  {
  }

  lemma WriteMoves(j: Job, s: State, i: nat)
    requires |s.workers| == |j.targets| == |j.results| && Enabled(j, s, Write(i))
    ensures var t := Step(j, s, Write(i));
      && t.workers == s.workers[i := if j.results[i].WriteFails? then Reporting else Finishing]
      && t.main == s.main && t.queue == s.queue && t.errs == s.errs
  {
  }

  lemma OpenKeepsErrors(j: Job, s: State, i: nat)
    requires |s.workers| == |j.targets| == |j.results| && ErrorsInv(j, s) && Enabled(j, s, Open(i))
    ensures |Step(j, s, Open(i)).workers| == |j.results| && ErrorsInv(j, Step(j, s, Open(i)))
  {
    OpenMoves(j, s, i);
    QuietMoveKeepsErrors(j, s, Step(j, s, Open(i)), i, if j.results[i].OpenFails? then Reporting else Writing);
  }

  lemma WriteKeepsErrors(j: Job, s: State, i: nat)
    requires |s.workers| == |j.targets| == |j.results| && ErrorsInv(j, s) && Enabled(j, s, Write(i))
    requires !j.results[i].OpenFails?
    ensures |Step(j, s, Write(i)).workers| == |j.results| && ErrorsInv(j, Step(j, s, Write(i)))
  {
    WriteMoves(j, s, i);
    QuietMoveKeepsErrors(j, s, Step(j, s, Write(i)), i, if j.results[i].WriteFails? then Reporting else Finishing);
  }

  lemma ReportKeepsErrors(j: Job, s: State, i: nat)
    requires WorkersInv(j, s) && ErrorsInv(j, s) && Enabled(j, s, Report(i))
    ensures |Step(j, s, Report(i)).workers| == |j.results| && ErrorsInv(j, Step(j, s, Report(i)))
  {
    ReportedUpdate(s.workers, j.results, i, Finishing);
    assert multiset(s.queue + [j.results[i].err]) == multiset(s.queue) + multiset{j.results[i].err};
  }

  lemma SpawnKeepsInv(j: Job, s: State)
    requires Inv(j, s) && Enabled(j, s, Spawn)
    ensures Inv(j, Step(j, s, Spawn))
  {
    CountActiveUpdate(s.workers, s.main.next, Opening);
    ReportedSame(s.workers, j.results, s.main.next, Opening);
  }

  lemma AwaitKeepsInv(j: Job, s: State)
    requires Inv(j, s) && Enabled(j, s, Await)
    ensures Inv(j, Step(j, s, Await))
  {
    forall i | 0 <= i < |s.workers| ensures s.workers[i].Gone? {
      NoneActive(s.workers, i);
    }
  }

  lemma ReceiveKeepsErrors(j: Job, s: State)
    requires |s.workers| == |j.targets| == |j.results| && ErrorsInv(j, s) && Enabled(j, s, Receive)
    ensures ErrorsInv(j, Step(j, s, Receive))
  {
    var head, tail := s.queue[0], s.queue[1..];
    assert s.queue == [head] + tail;
    assert multiset(s.errs + [head]) == multiset(s.errs) + multiset{head};
  }

  lemma StepKeepsInv(j: Job, s: State, l: Label)
    requires Inv(j, s) && Enabled(j, s, l)
    ensures Inv(j, Step(j, s, l))
  {
    match l {
      case Spawn => SpawnKeepsInv(j, s);
      case Await => AwaitKeepsInv(j, s);
      case Receive => ReceiveKeepsErrors(j, s);
      case Close =>
      case Return =>
      case Report(i) => WorkerStepKeepsWorkers(j, s, l); ReportKeepsErrors(j, s, i);
      case Finish(i) => WorkerStepKeepsWorkers(j, s, l); ReportedSame(s.workers, j.results, i, Gone);
      case Open(i) => WorkerStepKeepsWorkers(j, s, l); OpenKeepsErrors(j, s, i);
      case Write(i) => WorkerStepKeepsWorkers(j, s, l); WriteKeepsErrors(j, s, i);
    }
  }

  lemma {:induction false} InitInv(j: Job)
    requires ValidJob(j)
    ensures Inv(j, Init(j))
  {
    NothingYet(Init(j).workers, j.results);
  }

  lemma {:induction false} NothingYet(ws: seq<WorkerPc>, results: seq<Result>)
    requires |ws| == |results| && forall i :: 0 <= i < |ws| ==> ws[i].NotSpawned?
    ensures CountActive(ws) == 0 && Reported(ws, results) == multiset{}
  {
    if ws != [] {
      NothingYet(ws[1..], results[1..]);
    }
  }

  lemma {:induction false} RunKeepsInv(j: Job, s: State, schedule: seq<Label>, t: State)
    requires Inv(j, s) && Exec(j, s, schedule) == Some(t)
    ensures Inv(j, t)
    ensures |schedule| + Measure(t) <= Measure(s)
    ensures Distinct(j) && StoreInv(j, s) ==> StoreInv(j, t)
    decreases |schedule|
  {
    if schedule != [] {
      StepKeepsInv(j, s, schedule[0]);
      StepDecreases(j, s, schedule[0]);
      if Distinct(j) && StoreInv(j, s) {
        StepKeepsStore(j, s, schedule[0]);
      }
      RunKeepsInv(j, Step(j, s, schedule[0]), schedule[1..], t);
    }
  }

  // ---- Termination

  function Rank(w: WorkerPc): nat {
    match w
    case NotSpawned => 8
    case Opening => 6
    case Writing => 5
    case Reporting => 4
    case Finishing => 2
    case Gone => 0
  }

  function TotalRank(ws: seq<WorkerPc>): nat {
    if ws == [] then 0 else Rank(ws[0]) + TotalRank(ws[1..])
  }

  lemma {:induction false} TotalRankUpdate(ws: seq<WorkerPc>, i: nat, w: WorkerPc)
    requires i < |ws|
    ensures TotalRank(ws[i := w]) == TotalRank(ws) - Rank(ws[i]) + Rank(w)
  {
    if i == 0 {
      assert ws[i := w][1..] == ws[1..];
    } else {
      TotalRankUpdate(ws[1..], i - 1, w);
      assert ws[i := w][1..] == ws[1..][i - 1 := w];
    }
  }

  function Measure(s: State): nat {
    TotalRank(s.workers) + |s.queue| +
    match s.main case Spawning(_) => 3 case Closing => 2 case Draining => 1 case Returned => 0
  }

  lemma WorkerStepDecreases(j: Job, s: State, l: Label)
    requires |j.targets| == |j.results| == |s.workers| && Enabled(j, s, l)
    requires l.Open? || l.Write? || l.Finish? || (l.Report? && !j.results[l.i].Written?)
    ensures Measure(Step(j, s, l)) < Measure(s)
  {
    TotalRankUpdate(s.workers, l.i, Step(j, s, l).workers[l.i]);
  }

  /** Every step of anyone brings the call nearer to its return. */
  lemma StepDecreases(j: Job, s: State, l: Label)
    requires Inv(j, s) && Enabled(j, s, l)
    ensures Measure(Step(j, s, l)) < Measure(s)
  {
    if l.Spawn? {
      TotalRankUpdate(s.workers, s.main.next, Opening);
    } else if l.Open? || l.Write? || l.Report? || l.Finish? {
      WorkerStepDecreases(j, s, l);
    }
  }

  lemma {:induction false} InitialRank(ws: seq<WorkerPc>)
    requires forall i :: 0 <= i < |ws| ==> ws[i].NotSpawned?
    ensures TotalRank(ws) == 8 * |ws|
  {
    if ws != [] {
      InitialRank(ws[1..]);
    }
  }

  /** A worker with an error to report always finds room in the channel. */
  lemma ReportNeverBlocks(j: Job, s: State, i: nat)
    requires Inv(j, s) && WorkerAt(s, i, Reporting)
    ensures Enabled(j, s, Report(i))
  {
    ReportedSize(s.workers, j.results);
    assert |multiset(s.queue) + multiset(s.errs)| == |s.queue| + |s.errs|;
  }

  lemma {:induction false} SomeActive(ws: seq<WorkerPc>) returns (i: nat)
    requires CountActive(ws) > 0
    ensures i < |ws| && Active(ws[i])
  {
    if Active(ws[0]) {
      i := 0;
    } else {
      i := SomeActive(ws[1..]);
      i := i + 1;
    }
  }

  /** Until the call has returned somebody can move. */
  lemma Progress(j: Job, s: State)
    requires Inv(j, s) && !s.main.Returned?
    ensures exists l :: Enabled(j, s, l)
  {
    if s.main.Spawning? && s.main.next == |s.workers| && s.waitGroup > 0 {
      var i := SomeActive(s.workers);
      if s.workers[i].Reporting? {
        ReportNeverBlocks(j, s, i);
      }
      assert Enabled(j, s, Open(i)) || Enabled(j, s, Write(i)) || Enabled(j, s, Report(i)) || Enabled(j, s, Finish(i));
    } else {
      assert Enabled(j, s, Spawn) || Enabled(j, s, Await) || Enabled(j, s, Close) || Enabled(j, s, Receive) || Enabled(j, s, Return);
    }
  }

  // ---- What is written

  /** No two files have the same path; different ids and names are not enough for that. */
  ghost predicate Distinct(j: Job) {
    forall i, k :: 0 <= i < k < |j.targets| ==> Key(j, i) != Key(j, k)
  }

  function Lookup(store: Store, key: string): Option<string> {
    if key in store then Some(store[key]) else None
  }

  /** What the file of worker `i` holds, given how far the worker is. */
  function Content(j: Job, i: nat, w: WorkerPc): Option<string>
    requires i < |j.targets| == |j.results|
  {
    match w
    case NotSpawned => Lookup(j.initial, Key(j, i))
    case Opening => Lookup(j.initial, Key(j, i))
    case Writing => Some("")
    case _ =>
      match j.results[i]
      case Written => Some(j.targets[i].data)
      case OpenFails(_) => Lookup(j.initial, Key(j, i))
      case WriteFails(_, partial) => Some(partial)
  }

  /** No file of the job has this path. */
  ghost predicate NotWritten(j: Job, key: string) {
    forall i :: 0 <= i < |j.targets| ==> Key(j, i) != key
  }

  ghost predicate StoreInv(j: Job, s: State) {
    && |j.targets| == |j.results| == |s.workers|
    && (forall i :: 0 <= i < |j.targets| ==> Lookup(s.store, Key(j, i)) == Content(j, i, s.workers[i]))
    && (forall key :: NotWritten(j, key) ==> Lookup(s.store, key) == Lookup(j.initial, key))
  }

  lemma StepKeepsContent(j: Job, s: State, l: Label, i: nat)
    requires i < |j.targets| == |j.results| == |s.workers| && Enabled(j, s, l)
    requires (l.Open? || l.Write?) && l.i != i ==> Key(j, l.i) != Key(j, i)
    requires s.workers[i].Writing? ==> !j.results[i].OpenFails?
    requires s.main.Spawning? && s.main.next == i ==> s.workers[i].NotSpawned?
    requires Lookup(s.store, Key(j, i)) == Content(j, i, s.workers[i])
    ensures |Step(j, s, l).workers| == |s.workers|
    ensures Lookup(Step(j, s, l).store, Key(j, i)) == Content(j, i, Step(j, s, l).workers[i])
  {
  }

  lemma StepKeepsOthers(j: Job, s: State, l: Label, key: string)
    requires |j.targets| == |j.results| == |s.workers| && Enabled(j, s, l)
    requires NotWritten(j, key)
    ensures Lookup(Step(j, s, l).store, key) == Lookup(s.store, key)
  {
  }

  lemma StepKeepsStore(j: Job, s: State, l: Label)
    requires Inv(j, s) && Enabled(j, s, l) && Distinct(j) && StoreInv(j, s)
    ensures StoreInv(j, Step(j, s, l))
  {
    var t := Step(j, s, l);
    assert |t.workers| == |s.workers|;
    forall i | 0 <= i < |j.targets| ensures Lookup(t.store, Key(j, i)) == Content(j, i, t.workers[i]) {
      StepKeepsContent(j, s, l, i);
    }
    forall key | NotWritten(j, key)
      ensures Lookup(t.store, key) == Lookup(j.initial, key)
    {
      StepKeepsOthers(j, s, l, key);
    }
  }

  // ---- What holds on every schedule

  /** Whatever the interleaving: no panic, a report never blocks, at most eight steps per file and
      three more are taken, and a call that has not returned can go on. */
  lemma EveryScheduleTerminates(j: Job, schedule: seq<Label>, s: State)
    requires ValidJob(j) && Reaches(j, schedule, s)
    ensures !s.crashed
    ensures forall i: nat :: WorkerAt(s, i, Reporting) ==> Enabled(j, s, Report(i))
    ensures |schedule| <= 8 * |j.targets| + 3
    ensures !s.main.Returned? ==> exists l :: Enabled(j, s, l)
  {
    InitInv(j);
    RunKeepsInv(j, Init(j), schedule, s);
    InitialRank(Init(j).workers);
    forall i: nat | WorkerAt(s, i, Reporting) ensures Enabled(j, s, Report(i)) {
      ReportNeverBlocks(j, s, i);
    }
    if !s.main.Returned? {
      Progress(j, s);
    }
  }

  /** The returned errors are, as a multiset, the errors of the failed writes. */
  lemma ReturnedErrors(j: Job, s: State)
    requires Inv(j, s) && s.main.Returned?
    ensures multiset(s.errs) == AllErrors(j.results)
    ensures forall i :: 0 <= i < |s.workers| ==> s.workers[i].Gone?
  {
    AllGoneAllReported(s.workers, j.results);
    assert multiset(s.queue) + multiset(s.errs) == multiset(s.errs);
  }

  /** With distinct paths each file holds what its own write left, and nothing else changed. */
  lemma ReturnMeaning(j: Job, schedule: seq<Label>, s: State)
    requires ValidJob(j) && Reaches(j, schedule, s) && s.main.Returned?
    ensures multiset(s.errs) == AllErrors(j.results)
    ensures Distinct(j) ==> StoreInv(j, s) && forall i :: 0 <= i < |s.workers| ==> s.workers[i].Gone?
  {
    InitInv(j);
    RunKeepsInv(j, Init(j), schedule, s);
    ReturnedErrors(j, s);
  }

  /** With distinct paths the outcome does not depend on the schedule. */
  lemma OutcomeIsDeterministic(j: Job, a: seq<Label>, s: State, b: seq<Label>, t: State)
    requires ValidJob(j) && Distinct(j)
    requires Reaches(j, a, s) && s.main.Returned? && Reaches(j, b, t) && t.main.Returned?
    ensures s.store == t.store && multiset(s.errs) == multiset(t.errs)
  {
    ReturnMeaning(j, a, s);
    ReturnMeaning(j, b, t);
    forall key ensures Lookup(s.store, key) == Lookup(t.store, key) {
      if i :| 0 <= i < |j.targets| && Key(j, i) == key {
        assert Content(j, i, s.workers[i]) == Content(j, i, t.workers[i]);
      }
    }
    SameLookups(s.store, t.store);
  }

  lemma SameLookups(a: Store, b: Store)
    requires forall key :: Lookup(a, key) == Lookup(b, key)
    ensures a == b
  {
    assert forall key :: key in a ==> Lookup(b, key) == Some(a[key]);
    assert forall key :: key in b ==> Lookup(a, key) == Some(b[key]);
  }

  // ---- Files that share a path

  /** The worker has written its file, or will not. */
  predicate Settled(w: WorkerPc) {
    w.Reporting? || w.Finishing? || w.Gone?
  }

  ghost predicate AllSettled(s: State) {
    forall i :: 0 <= i < |s.workers| ==> Settled(s.workers[i])
  }

  /** Apart from the spawn, the open and the write, a step moves at most one worker, to a settled place. */
  lemma QuietStep(j: Job, s: State, l: Label)
    requires |s.workers| == |j.targets| == |j.results| && Enabled(j, s, l)
    requires !l.Spawn? && !l.Open? && !l.Write?
    ensures var t := Step(j, s, l);
      && t.store == s.store && |t.workers| == |s.workers|
      && forall i :: 0 <= i < |s.workers| ==> t.workers[i] == s.workers[i] || Settled(t.workers[i])
  {
  }

  lemma SettledStep(j: Job, s: State, l: Label)
    requires WorkersInv(j, s) && Enabled(j, s, l) && AllSettled(s)
    ensures AllSettled(Step(j, s, l)) && Step(j, s, l).store == s.store
  {
    assert l.Spawn? ==> !Settled(s.workers[s.main.next]);
    QuietStep(j, s, l);
  }

  ghost predicate Completes(j: Job, s: State, schedule: seq<Label>, t: State)
    requires ValidJob(j)
  {
    |s.workers| == |j.targets| && Exec(j, s, schedule) == Some(t) && t.main.Returned?
  }

  lemma {:induction false} CompleteSettled(j: Job, s: State) returns (schedule: seq<Label>, t: State)
    requires ValidJob(j) && Inv(j, s) && AllSettled(s)
    ensures Completes(j, s, schedule, t) && t.store == s.store
    decreases Measure(s)
  {
    if s.main.Returned? {
      schedule, t := [], s;
    } else {
      Progress(j, s);
      var l :| Enabled(j, s, l);
      StepKeepsInv(j, s, l);
      StepDecreases(j, s, l);
      SettledStep(j, s, l);
      schedule, t := CompleteSettled(j, Step(j, s, l));
      PrependStep(j, s, l, schedule, t);
      schedule := [l] + schedule;
    }
  }

  lemma PrependStep(j: Job, s: State, l: Label, schedule: seq<Label>, t: State)
    requires ValidJob(j) && Inv(j, s) && Enabled(j, s, l) && Completes(j, Step(j, s, l), schedule, t)
    ensures Completes(j, s, [l] + schedule, t)
  {
    assert ([l] + schedule)[1..] == schedule;
  }

  /** If only worker `i`'s write is possible, every other worker is done. */
  lemma OnlyWriteLeft(j: Job, s: State, i: nat)
    requires Inv(j, s) && i < |s.workers| && !Settled(s.workers[i])
    requires forall l :: Enabled(j, s, l) ==> l == Write(i)
    ensures Enabled(j, s, Write(i)) && forall k :: 0 <= k < |s.workers| && k != i ==> Settled(s.workers[k])
  {
    assert !Enabled(j, s, Spawn);
    forall k | 0 <= k < |s.workers| && k != i ensures Settled(s.workers[k]) {
      assert !Enabled(j, s, Open(k)) && !Enabled(j, s, Write(k));
    }
    assert !Enabled(j, s, Open(i));
  }

  predicate StartsWith(store: Store, key: string, data: string) {
    key in store && data <= store[key]
  }

  lemma WriteSettles(j: Job, s: State, i: nat)
    requires Inv(j, s) && Enabled(j, s, Write(i)) && j.results[i].Written?
    requires forall k :: 0 <= k < |s.workers| && k != i ==> Settled(s.workers[k])
    ensures AllSettled(Step(j, s, Write(i))) && StartsWith(Step(j, s, Write(i)).store, Key(j, i), j.targets[i].data)
  {
  }

  lemma StaysUnsettled(j: Job, s: State, l: Label, i: nat)
    requires Inv(j, s) && Enabled(j, s, l) && i < |s.workers| && !Settled(s.workers[i])
    requires l != Write(i) && j.results[i].Written?
    ensures i < |Step(j, s, l).workers| && !Settled(Step(j, s, l).workers[i])
  {
  }

  /** Any successful writer can be scheduled last. */
  lemma {:induction false} LastWriter(j: Job, s: State, i: nat) returns (schedule: seq<Label>, t: State)
    requires ValidJob(j) && Inv(j, s) && i < |s.workers| && !Settled(s.workers[i]) && j.results[i].Written?
    ensures Completes(j, s, schedule, t) && StartsWith(t.store, Key(j, i), j.targets[i].data)
    decreases Measure(s)
  {
    if l :| Enabled(j, s, l) && l != Write(i) {
      StepKeepsInv(j, s, l);
      StepDecreases(j, s, l);
      StaysUnsettled(j, s, l, i);
      schedule, t := LastWriter(j, Step(j, s, l), i);
      PrependStep(j, s, l, schedule, t);
      schedule := [l] + schedule;
    } else {
      OnlyWriteLeft(j, s, i);
      StepKeepsInv(j, s, Write(i));
      WriteSettles(j, s, i);
      schedule, t := CompleteSettled(j, Step(j, s, Write(i)));
      PrependStep(j, s, Write(i), schedule, t);
      schedule := [Write(i)] + schedule;
    }
  }

  /** All schedules of the job end with the same store. */
  ghost predicate Deterministic(j: Job)
    requires ValidJob(j)
  {
    forall a, s, b, t :: Completes(j, Init(j), a, s) && Completes(j, Init(j), b, t) ==> s.store == t.store
  }

  /** The jobs that write these paths, whatever the data, the failures and the files before. */
  ghost predicate WritesTo(j: Job, paths: seq<string>) {
    ValidJob(j) && |j.targets| == |paths| && forall i :: 0 <= i < |paths| ==> j.targets[i].path == paths[i]
  }

  /** Every job on these paths has one outcome, whatever it writes and whichever writes fail, if and
      only if the paths are pairwise different. */
  lemma DeterministicIffPathsDistinct(paths: seq<string>)
    ensures (forall j :: WritesTo(j, paths) ==> Deterministic(j))
      <==> forall i, k :: 0 <= i < k < |paths| ==> paths[i] != paths[k]
  {
    if i, k :| 0 <= i < k < |paths| && paths[i] == paths[k] {
      var j := Job(seq(|paths|, n requires 0 <= n < |paths| => Target(paths[n], if n == i then "i" else "k")),
                   seq(|paths|, n => Written), map[]);
      InitInv(j);
      var a, s := LastWriter(j, Init(j), i);
      var b, t := LastWriter(j, Init(j), k);
      assert Key(j, i) == Key(j, k);
      assert s.store[Key(j, i)][0] != t.store[Key(j, i)][0];
      assert WritesTo(j, paths) && !Deterministic(j);
    } else {
      forall j | WritesTo(j, paths) ensures Deterministic(j) {
        assert Distinct(j);
        forall a, s, b, t | Completes(j, Init(j), a, s) && Completes(j, Init(j), b, t) ensures s.store == t.store {
          OutcomeIsDeterministic(j, a, s, b, t);
        }
      }
    }
  }

  // ---- Two writers in one file

  /** Two files with one path, the second shorter, both writes in order after both opens. */
  ghost predicate Collide(j: Job) {
    && |j.targets| == 2 && j.results == [Written, Written]
    && Key(j, 0) == Key(j, 1) && |j.targets[1].data| < |j.targets[0].data|
  }

  function Opened(j: Job): State
    requires |j.targets| == 2
  {
    State(Spawning(2), [Writing, Writing], 2, [], [], j.initial[Key(j, 0) := ""], false)
  }

  lemma OpenBoth(j: Job)
    requires Collide(j)
    ensures Exec(j, Init(j), [Spawn, Spawn, Open(0), Open(1)]) == Some(Opened(j))
  {
    var s1 := State(Spawning(1), [Opening, NotSpawned], 1, [], [], j.initial, false);
    var s2 := State(Spawning(2), [Opening, Opening], 2, [], [], j.initial, false);
    var s3 := State(Spawning(2), [Writing, Opening], 2, [], [], j.initial[Key(j, 0) := ""], false);
    assert Step(j, Init(j), Spawn) == s1;
    assert Step(j, s1, Spawn) == s2;
    assert Step(j, s2, Open(0)) == s3;
    assert Step(j, s3, Open(1)) == Opened(j);
    assert Exec(j, s3, [Open(1)]) == Some(Opened(j)) by { assert [Open(1)][1..] == []; }
    assert Exec(j, s2, [Open(0), Open(1)]) == Some(Opened(j)) by { assert [Open(0), Open(1)][1..] == [Open(1)]; }
    assert [Spawn, Open(0), Open(1)][1..] == [Open(0), Open(1)];
    assert [Spawn, Spawn, Open(0), Open(1)][1..] == [Spawn, Open(0), Open(1)];
  }

  lemma WriteBoth(j: Job)
    requires Collide(j)
    ensures var s := Step(j, Opened(j), Write(0));
      && Enabled(j, s, Write(1)) && AllSettled(Step(j, s, Write(1)))
      && Lookup(Step(j, s, Write(1)).store, Key(j, 0))
         == Some(j.targets[1].data + j.targets[0].data[|j.targets[1].data|..])
  {
  }

  /** The call can leave a file that nobody wrote: the short data followed by the rest of the long. */
  lemma MixedContent(j: Job) returns (schedule: seq<Label>, t: State)
    requires Collide(j)
    ensures Completes(j, Init(j), [Spawn, Spawn, Open(0), Open(1)] + schedule, t)
    ensures Lookup(t.store, Key(j, 0)) == Some(j.targets[1].data + j.targets[0].data[|j.targets[1].data|..])
  {
    var first := [Spawn, Spawn, Open(0), Open(1)];
    OpenBoth(j);
    InitInv(j);
    RunKeepsInv(j, Init(j), first, Opened(j));
    WriteBoth(j);
    var s1 := Step(j, Opened(j), Write(0));
    StepKeepsInv(j, Opened(j), Write(0));
    StepKeepsInv(j, s1, Write(1));
    schedule, t := CompleteSettled(j, Step(j, s1, Write(1)));
    PrependStep(j, s1, Write(1), schedule, t);
    PrependStep(j, Opened(j), Write(0), [Write(1)] + schedule, t);
    schedule := [Write(0)] + ([Write(1)] + schedule);
    RunsCompose(j, Init(j), first, Opened(j), schedule);
  }

  lemma {:induction false} RunsCompose(j: Job, s: State, first: seq<Label>, middle: State, rest: seq<Label>)
    requires Inv(j, s) && Exec(j, s, first) == Some(middle)
    ensures Inv(j, middle) && Exec(j, s, first + rest) == Exec(j, middle, rest)
    decreases |first|
  {
    if first == [] {
      assert first + rest == rest;
    } else {
      assert (first + rest)[1..] == first[1..] + rest;
      StepKeepsInv(j, s, first[0]);
      RunsCompose(j, Step(j, s, first[0]), first[1..], middle, rest);
    }
  }

  // ---- The call

  method RunJob(j: Job, pick: State -> Label) returns (s: State)
    requires ValidJob(j)
    requires forall s :: Inv(j, s) && !s.main.Returned? ==> Enabled(j, s, pick(s))
    ensures Inv(j, s) && s.main.Returned? && (Distinct(j) ==> StoreInv(j, s))
  {
    s := Init(j);
    InitInv(j);
    while !s.main.Returned?
      invariant Inv(j, s)
      invariant Distinct(j) ==> StoreInv(j, s)
      decreases Measure(s)
    {
      var l := pick(s);
      StepKeepsInv(j, s, l);
      StepDecreases(j, s, l);
      if Distinct(j) {
        StepKeepsStore(j, s, l);
      }
      s := Step(j, s, l);
    }
  }

  /** No two files of the call go to the same path. */
  ghost predicate DistinctPaths(root: string, files: seq<File>) {
    forall i, k :: 0 <= i < k < |files| ==>
      FilePath(root, files[i].id, files[i].name) != FilePath(root, files[k].id, files[k].name)
  }

  /** The call under any scheduler that picks something enabled while there is work. */
  method Run(root: string, files: seq<File>, results: seq<Result>, initial: Store, pick: State -> Label)
    returns (errs: seq<string>, store: Store)
    requires |files| == |results|
    requires forall s :: Inv(JobOf(root, files, results, initial), s) && !s.main.Returned? ==>
      Enabled(JobOf(root, files, results, initial), s, pick(s))
    ensures multiset(errs) == AllErrors(results)
    ensures DistinctPaths(root, files) ==> forall i :: 0 <= i < |files| ==>
      var path := FilePath(root, files[i].id, files[i].name);
      match results[i]
      case Written => Lookup(store, path) == Some(files[i].data)
      case WriteFails(_, partial) => Lookup(store, path) == Some(partial)
      case OpenFails(_) => Lookup(store, path) == Lookup(initial, path)
    ensures DistinctPaths(root, files) ==> forall path ::
      (forall i :: 0 <= i < |files| ==> FilePath(root, files[i].id, files[i].name) != path) ==>
      Lookup(store, path) == Lookup(initial, path)
  {
    var j := JobOf(root, files, results, initial);
    var s := RunJob(j, pick);
    ReturnedErrors(j, s);
    errs, store := s.errs, s.store;
    assert forall i :: 0 <= i < |files| ==> FilePath(root, files[i].id, files[i].name) == Key(j, i);
    if DistinctPaths(root, files) {
      forall i | 0 <= i < |files| ensures Lookup(store, Key(j, i)) == Content(j, i, Gone) {
      }
      forall path | forall i :: 0 <= i < |files| ==> FilePath(root, files[i].id, files[i].name) != path
        ensures Lookup(store, path) == Lookup(initial, path)
      {
        assert NotWritten(j, path);
      }
    }
  }
}
