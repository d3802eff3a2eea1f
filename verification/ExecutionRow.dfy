/** The row of one execution, written by two services that do not wait for each other: the API
    submits the message and then inserts the row, the loader updates it as soon as the message
    arrives. An update of a row that does not exist yet changes nothing and is no error. */
module ExecutionRow {
  import opened Text
  import opened Status
  import opened Decimal
  import opened Sandbox

  datatype Execution = Execution(
    language: string,
    status: string,
    testStatus: string,
    compileMs: int,
    runtimeMs: int,
    runtimeMemoryMb: real)

  type Rows = map<string, Execution>

  function TestStatusString(t: TestStatus): string {
    match t
    case NoTest => "NoTest"
    case TestNotRan => "TestNotRan"
    case TestFailed => "TestFailed"
    case TestPassed => "TestPassed"
  }

  /** `ms` is `nanos` in whole milliseconds, truncated toward zero. */
  predicate IsMilliseconds(ms: int, nanos: int) {
    && (nanos >= 0 ==> ms * 1_000_000 <= nanos < (ms + 1) * 1_000_000)
    && (nanos <= 0 ==> (ms - 1) * 1_000_000 < nanos <= ms * 1_000_000)
  }

  /** `Duration.Milliseconds`. */
  function Milliseconds(nanos: int): (ms: int)
    ensures IsMilliseconds(ms, nanos)
  {
    if nanos >= 0 then nanos / 1_000_000 else -(-nanos / 1_000_000)
  }

  // ---- The repository

  /** Updating with a struct writes its non-zero fields only. */
  function Overwrite(row: Execution, columns: Execution): Execution {
    Execution(
      if columns.language != "" then columns.language else row.language,
      if columns.status != "" then columns.status else row.status,
      if columns.testStatus != "" then columns.testStatus else row.testStatus,
      if columns.compileMs != 0 then columns.compileMs else row.compileMs,
      if columns.runtimeMs != 0 then columns.runtimeMs else row.runtimeMs,
      if columns.runtimeMemoryMb != 0.0 then columns.runtimeMemoryMb else row.runtimeMemoryMb)
  }

  /** An update with every field set replaces the row, one with none set leaves it. */
  lemma UpdateLaws(row: Execution, columns: Execution)
    ensures Overwrite(row, Execution("", "", "", 0, 0, 0.0)) == row
    ensures (&& columns.language != "" && columns.status != "" && columns.testStatus != ""
             && columns.compileMs != 0 && columns.runtimeMs != 0 && columns.runtimeMemoryMb != 0.0)
      ==> Overwrite(row, columns) == columns
  {
  }

  function Update(rows: Rows, id: string, columns: Execution): Rows {
    if id in rows then rows[id := Overwrite(rows[id], columns)] else rows
  }

  function StatusColumn(status: string): Execution {
    Execution("", status, "", 0, 0, 0.0)
  }

  class Repository {
    var rows: Rows

    constructor ()
      ensures rows == map[]
    {
      rows := map[];
    }

    /** The id is the primary key: inserting it twice fails. */
    method InsertExecution(id: string, execution: Execution) returns (ok: bool)
      modifies this
      ensures ok <==> id !in old(rows)
      ensures rows == if ok then old(rows)[id := execution] else old(rows)
    {
      ok := id !in rows;
      if ok {
        rows := rows[id := execution];
      }
    }

    method UpdateExecution(id: string, columns: Execution) returns (affected: bool)
      modifies this
      ensures affected <==> id in old(rows)
      ensures rows == Update(old(rows), id, columns)
    {
      affected := id in rows;
      if affected {
        rows := rows[id := Overwrite(rows[id], columns)];
      }
    }

    method UpdateExecutionStatus(id: string, status: string)
      modifies this
      ensures rows == Update(old(rows), id, StatusColumn(status))
    {
      var affected := UpdateExecution(id, StatusColumn(status));
    }
  }

  // ---- The race

  /** One execution: the row the API inserts and the updates the loader makes, in order. */
  datatype Race = Race(id: string, first: Execution, writes: seq<Execution>, others: Rows)

  /** `insertedAfter` remembers how many updates the loader had made when the row was inserted. */
  datatype State = State(rows: Rows, submitted: bool, insertedAfter: Option<nat>, updates: nat)

  function Init(r: Race): State {
    State(r.others, false, None, 0)
  }

  datatype Label = Submit | Insert | LoaderUpdate

  predicate Enabled(r: Race, s: State, l: Label) {
    match l
    case Submit => !s.submitted
    case Insert => s.submitted && s.insertedAfter.None?
    case LoaderUpdate => s.submitted && s.updates < |r.writes|
  }

  function Step(r: Race, s: State, l: Label): State
    requires Enabled(r, s, l)
  {
    match l
    case Submit => s.(submitted := true)
    case Insert => s.(rows := s.rows[r.id := r.first], insertedAfter := Some(s.updates))
    case LoaderUpdate => s.(rows := Update(s.rows, r.id, r.writes[s.updates]), updates := s.updates + 1)
  }

  function Exec(r: Race, s: State, schedule: seq<Label>): Option<State>
    decreases |schedule|
  {
    if schedule == [] then Some(s)
    else if Enabled(r, s, schedule[0]) then Exec(r, Step(r, s, schedule[0]), schedule[1..])
    else None
  }

  ghost predicate Reaches(r: Race, schedule: seq<Label>, t: State) {
    Exec(r, Init(r), schedule) == Some(t)
  }

  /** Both services are through. */
  predicate Over(r: Race, s: State) {
    s.submitted && s.insertedAfter.Some? && s.updates == |r.writes|
  }

  /** A row after a list of updates. */
  function Apply(row: Execution, columns: seq<Execution>): Execution {
    if columns == [] then row
    else Overwrite(Apply(row, columns[..|columns| - 1]), columns[|columns| - 1])
  }

  /** The row holds exactly the updates made since it was inserted; other rows are untouched. */
  ghost predicate Inv(r: Race, s: State) {
    && s.updates <= |r.writes| && (!s.submitted ==> s.updates == 0)
    && (s.insertedAfter.None? ==> s.rows == r.others)
    && (s.insertedAfter.Some? ==>
          && s.submitted && s.insertedAfter.value <= s.updates
          && s.rows == r.others[r.id := Apply(r.first, r.writes[s.insertedAfter.value..s.updates])])
  }

  lemma InsertKeepsInv(r: Race, s: State)
    requires Inv(r, s) && Enabled(r, s, Insert)
    ensures Inv(r, Step(r, s, Insert))
  {
    assert r.writes[s.updates..s.updates] == [];
  }

  lemma UpdateKeepsInv(r: Race, s: State)
    requires r.id !in r.others && Inv(r, s) && Enabled(r, s, LoaderUpdate)
    ensures Inv(r, Step(r, s, LoaderUpdate))
  {
    if s.insertedAfter.Some? {
      var k := s.insertedAfter.value;
      var upTo := r.writes[k..s.updates + 1];
      assert upTo[..|upTo| - 1] == r.writes[k..s.updates];
    }
  }

  lemma StepKeepsInv(r: Race, s: State, l: Label)
    requires r.id !in r.others && Inv(r, s) && Enabled(r, s, l)
    ensures Inv(r, Step(r, s, l))
  {
    match l {
      case Submit =>
      case Insert => InsertKeepsInv(r, s);
      case LoaderUpdate => UpdateKeepsInv(r, s);
    }
  }

  lemma {:induction false} RunKeepsInv(r: Race, s: State, schedule: seq<Label>, t: State)
    requires r.id !in r.others && Inv(r, s) && Exec(r, s, schedule) == Some(t)
    ensures Inv(r, t)
    decreases |schedule|
  {
    if schedule != [] {
      StepKeepsInv(r, s, schedule[0]);
      RunKeepsInv(r, Step(r, s, schedule[0]), schedule[1..], t);
    }
  }

  /** On every interleaving the row ends as inserted with the loader's updates from then on, and
      once both services are through nothing can change it again. */
  lemma FinalRow(r: Race, schedule: seq<Label>, s: State)
    requires r.id !in r.others && Reaches(r, schedule, s) && Over(r, s)
    ensures s.insertedAfter.value <= |r.writes|
    ensures s.rows == r.others[r.id := Apply(r.first, r.writes[s.insertedAfter.value..])]
    ensures forall l :: !Enabled(r, s, l)
  {
    RunKeepsInv(r, Init(r), schedule, s);
    assert r.writes[s.insertedAfter.value..] == r.writes[s.insertedAfter.value..s.updates];
  }

  /** The calls a step of the race makes on the repository. */
  method Call(repo: Repository, r: Race, s: State, l: Label)
    requires r.id !in r.others && Inv(r, s) && Enabled(r, s, l) && repo.rows == s.rows
    modifies repo
    ensures repo.rows == Step(r, s, l).rows
  {
    match l {
      case Submit =>
      case Insert =>
        var inserted := repo.InsertExecution(r.id, r.first);
        assert inserted;
      case LoaderUpdate =>
        var columns := r.writes[s.updates];
        if StatusOnly(columns) {
          repo.UpdateExecutionStatus(r.id, columns.status);
        } else {
          var affected := repo.UpdateExecution(r.id, columns);
        }
    }
  }

  /** Two services that work on one repository in any order the race allows leave exactly the rows
      of the race: no insert fails, and an update is lost if and only if it came before the insert. */
  method RunSchedule(repo: Repository, r: Race, schedule: seq<Label>) returns (s: State)
    requires repo.rows == r.others && r.id !in r.others && Exec(r, Init(r), schedule).Some?
    modifies repo
    ensures Reaches(r, schedule, s) && repo.rows == s.rows
    ensures Over(r, s) ==>
      && s.insertedAfter.value <= |r.writes|
      && repo.rows == old(repo.rows)[r.id := Apply(r.first, r.writes[s.insertedAfter.value..])]
  {
    s := Init(r);
    for i := 0 to |schedule|
      invariant Exec(r, s, schedule[i..]) == Exec(r, Init(r), schedule)
      invariant Inv(r, s) && repo.rows == s.rows
    {
      assert schedule[i..][0] == schedule[i] && schedule[i..][1..] == schedule[i + 1..];
      StepKeepsInv(r, s, schedule[i]);
      Call(repo, r, s, schedule[i]);
      s := Step(r, s, schedule[i]);
    }
    assert schedule[|schedule|..] == [];
    if Over(r, s) {
      FinalRow(r, schedule, s);
    }
  }

  // ---- What the two services write

  /** How the loader's handler ends. */
  datatype Ending = Completes(response: Response) | AddFails | TimesOut

  function ResultColumns(r: Response): Execution {
    Execution("", StatusString(r.result.status), TestStatusString(r.testStatus),
              Milliseconds(r.result.compileTime), Milliseconds(r.result.runtime),
              r.result.memory as real / 1048576.0)
  }

  function LastWrite(e: Ending): Execution {
    match e
    case Completes(r) => ResultColumns(r)
    case AddFails => StatusColumn(StatusString(NON_DETERMINISTIC_ERROR))
    case TimesOut => StatusColumn(StatusString(RUNNING))
  }

  function LoaderWrites(e: Ending): seq<Execution> {
    [StatusColumn(StatusString(CREATED))]
    + (if e.Completes? then [StatusColumn(StatusString(RUNNING))] else [])
    + [LastWrite(e)]
  }

  function FirstRow(language: string): Execution {
    Execution(language, StatusString(NOT_RAN), TestStatusString(TestNotRan), 0, 0, 0.0)
  }

  function RaceOf(id: string, language: string, e: Ending, others: Rows): Race {
    Race(id, FirstRow(language), LoaderWrites(e), others)
  }

  /** A row that differs from the inserted one in its status only. */
  predicate OnlyStatusSet(row: Execution, first: Execution) {
    row == first.(status := row.status)
  }

  predicate StatusOnly(columns: Execution) {
    columns == StatusColumn(columns.status)
  }

  lemma {:induction false} StatusUpdates(first: Execution, columns: seq<Execution>)
    requires forall i :: 0 <= i < |columns| ==> StatusOnly(columns[i])
    ensures OnlyStatusSet(Apply(first, columns), first)
  {
    if columns != [] {
      StatusUpdates(first, columns[..|columns| - 1]);
      assert StatusOnly(columns[|columns| - 1]);
    }
  }

  lemma NamesNotEmpty(status: int)
    ensures StatusString(status) != ""
  {
    if 0 <= status < 12 { NameShape(status); } else { OutOfRangeShape(status); }
  }

  /** What the last update leaves of a row that only had its status set before. */
  lemma LastWriteWins(language: string, e: Ending, row: Execution)
    requires OnlyStatusSet(row, FirstRow(language))
    ensures Overwrite(row, LastWrite(e)) ==
      match e
      case Completes(response) => ResultColumns(response).(language := language)
      case _ => FirstRow(language).(status := LastWrite(e).status)
  {
    NamesNotEmpty(RUNNING);
    NamesNotEmpty(NON_DETERMINISTIC_ERROR);
    if e.Completes? {
      NamesNotEmpty(e.response.result.status);
    }
  }

  /** The row of a completed run, field by field. */
  ghost predicate Records(row: Execution, language: string, r: Response) {
    && row.language == language
    && row.status == (if 0 <= r.result.status < 12 then NAMES[r.result.status]
                      else "ContainerStatus(" + PrintInt(r.result.status) + ")")
    && (r.testStatus == NoTest ==> row.testStatus == "NoTest")
    && (r.testStatus == TestNotRan ==> row.testStatus == "TestNotRan")
    && (r.testStatus == TestFailed ==> row.testStatus == "TestFailed")
    && (r.testStatus == TestPassed ==> row.testStatus == "TestPassed")
    && IsMilliseconds(row.compileMs, r.result.compileTime)
    && IsMilliseconds(row.runtimeMs, r.result.runtime)
    && row.runtimeMemoryMb * 1048576.0 == r.result.memory as real
  }

  lemma ColumnsRecord(language: string, r: Response)
    ensures Records(ResultColumns(r).(language := language), language, r)
  {
    if 0 <= r.result.status < 12 {
      TableInRange(r.result.status);
    }
  }

  /** If the insert came before the loader's last update, the row ends with the status and, for a
      completed run, with the test status and measurements of that run (the updates skip zero
      fields, but over a row of zeros); otherwise it stays NotRan and TestNotRan. */
  lemma RaceOutcome(id: string, language: string, e: Ending, others: Rows, schedule: seq<Label>, s: State)
    requires id !in others && Reaches(RaceOf(id, language, e, others), schedule, s)
    requires Over(RaceOf(id, language, e, others), s)
    ensures id in s.rows && s.rows == others[id := s.rows[id]]
    ensures s.insertedAfter.value == s.updates ==>
      s.rows[id] == Execution(language, "NotRan", "TestNotRan", 0, 0, 0.0)
    ensures s.insertedAfter.value < s.updates ==>
      match e
      case Completes(response) => Records(s.rows[id], language, response)
      case AddFails => s.rows[id] == Execution(language, "NonDeterministicError", "TestNotRan", 0, 0, 0.0)
      case TimesOut => s.rows[id] == Execution(language, "Running", "TestNotRan", 0, 0, 0.0)
  {
    var r := RaceOf(id, language, e, others);
    FinalRow(r, schedule, s);
    CodesHaveNames();
    RowAfter(language, e, s.insertedAfter.value);
    if e.Completes? {
      ColumnsRecord(language, e.response);
    }
  }

  /** The row as inserted after `k` updates, with the rest of them made. */
  lemma RowAfter(language: string, e: Ending, k: nat)
    requires k <= |LoaderWrites(e)|
    ensures Apply(FirstRow(language), LoaderWrites(e)[k..]) ==
      if k == |LoaderWrites(e)| then FirstRow(language)
      else match e
        case Completes(response) => ResultColumns(response).(language := language)
        case _ => FirstRow(language).(status := LastWrite(e).status)
  {
    var writes := LoaderWrites(e);
    var rest := writes[k..];
    if rest != [] {
      var front := rest[..|rest| - 1];
      assert rest[|rest| - 1] == LastWrite(e);
      forall i | 0 <= i < |front| ensures StatusOnly(front[i]) {
        assert front[i] == writes[k + i];
      }
      StatusUpdates(FirstRow(language), front);
      LastWriteWins(language, e, Apply(FirstRow(language), front));
    }
  }

  lemma {:induction false} LanguageStays(first: Execution, columns: seq<Execution>)
    requires forall i :: 0 <= i < |columns| ==> columns[i].language == ""
    ensures Apply(first, columns).language == first.language
  {
    if columns != [] {
      LanguageStays(first, columns[..|columns| - 1]);
    }
  }

  /** What the loader's updates say of the status, in order. */
  lemma WriteStatuses(e: Ending, i: nat)
    requires i < |LoaderWrites(e)|
    ensures LoaderWrites(e)[i].language == "" && LoaderWrites(e)[i].status != "" && i < 3
    ensures i == 0 ==> LoaderWrites(e)[i].status == "Created"
    ensures i == 1 ==> LoaderWrites(e)[i].status == if e.AddFails? then "NonDeterministicError" else "Running"
    ensures i == 2 ==> e.Completes? && LoaderWrites(e)[i].status == StatusString(e.response.result.status)
  {
    CodesHaveNames();
    if e.Completes? {
      NamesNotEmpty(e.response.result.status);
    }
  }

  /** The status the race shows after `updates` updates to a row that was there for the last of them. */
  ghost predicate Shows(status: string, e: Ending, updates: nat) {
    && (updates == 1 ==> status == "Created")
    && (updates == 2 ==> status == if e.AddFails? then "NonDeterministicError" else "Running")
    && (updates == 3 ==> e.Completes? && status == StatusString(e.response.result.status))
    && 1 <= updates <= 3
  }

  lemma RowShows(first: Execution, e: Ending, k: nat, n: nat)
    requires k < n <= |LoaderWrites(e)|
    ensures Shows(Apply(first, LoaderWrites(e)[k..n]).status, e, n)
  {
    WriteStatuses(e, n - 1);
    var made := LoaderWrites(e)[k..n];
    assert made[|made| - 1] == LoaderWrites(e)[n - 1];
  }

  lemma RowLanguage(first: Execution, e: Ending, k: nat, n: nat)
    requires k <= n <= |LoaderWrites(e)|
    ensures Apply(first, LoaderWrites(e)[k..n]).language == first.language
  {
    forall i | k <= i < n ensures LoaderWrites(e)[i].language == "" {
      WriteStatuses(e, i);
    }
    LanguageStays(first, LoaderWrites(e)[k..n]);
  }

  /** What a reader of the row sees while the race is on: nothing before the insert, NotRan until an
      update hits the row, then what the loader has come to. */
  lemma StatusSeen(id: string, language: string, e: Ending, others: Rows, schedule: seq<Label>, s: State)
    requires id !in others && Reaches(RaceOf(id, language, e, others), schedule, s)
    ensures s.insertedAfter.None? ==> s.rows == others
    ensures !s.submitted ==> s.insertedAfter.None? && s.updates == 0
    ensures s.insertedAfter.Some? ==>
      && id in s.rows && s.rows[id].language == language && s.insertedAfter.value <= s.updates
      && if s.insertedAfter.value == s.updates then s.rows[id].status == "NotRan" else Shows(s.rows[id].status, e, s.updates)
  {
    var r := RaceOf(id, language, e, others);
    RunKeepsInv(r, Init(r), schedule, s);
    if s.insertedAfter.Some? {
      var k := s.insertedAfter.value;
      RowLanguage(r.first, e, k, s.updates);
      if k < s.updates {
        RowShows(r.first, e, k, s.updates);
      } else {
        CodesHaveNames();
      }
    }
  }

  /** After a completed run the row says TestNotRan exactly when the insert came last. */
  lemma TestNotRanMeansInsertedLast(
      id: string, language: string, response: Response, others: Rows, schedule: seq<Label>, s: State)
    requires id !in others && Reaches(RaceOf(id, language, Completes(response), others), schedule, s)
    requires Over(RaceOf(id, language, Completes(response), others), s) && response.testStatus != TestNotRan
    ensures id in s.rows
    ensures s.rows[id].testStatus == "TestNotRan" <==> s.insertedAfter.value == 3
  {
    RaceOutcome(id, language, Completes(response), others, schedule, s);
    FinalRow(RaceOf(id, language, Completes(response), others), schedule, s);
    assert |TestStatusString(response.testStatus)| == 10 ==> TestStatusString(response.testStatus)[4] != 'N';
  }
}
