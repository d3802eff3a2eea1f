/** The container and test status codes and the generated `ContainerStatus.String`. */
module Status {
  import opened Decimal

  const NOT_RAN := 0
  const CREATED := 1
  const RUNNING := 2
  const KILLING := 3
  const KILLED := 4
  const FINISHED := 5
  const MEMORY_CONSTRAINT_EXCEEDED := 6
  const TIME_LIMIT_EXCEEDED := 7
  const PROVIDED_TEST_FAILED := 8
  const COMPILATION_FAILED := 9
  const RUN_TIME_ERROR := 10
  const NON_DETERMINISTIC_ERROR := 11

  datatype TestStatus = NoTest | TestNotRan | TestFailed | TestPassed

  const NAMES: seq<string> := [
    "NotRan", "Created", "Running", "Killing", "Killed", "Finished", "MemoryConstraintExceeded",
    "TimeLimitExceeded", "ProvidedTestFailed", "CompilationFailed", "RunTimeError", "NonDeterministicError"]

  function Concat(parts: seq<string>): string {
    if parts == [] then "" else Concat(parts[..|parts| - 1]) + parts[|parts| - 1]
  }

  /** The one string that holds all names, written on five lines, and where each begins and ends. */
  const STATUS_NAMES := LINE_1 + LINE_2 + LINE_3 + LINE_4 + LINE_5
  const LINE_1 := "NotRanCreatedRunning"
  const LINE_2 := "KillingKilledFinished"
  const LINE_3 := "MemoryConstraintExceededTimeLimitExceeded"
  const LINE_4 := "ProvidedTestFailedCompilationFailed"
  const LINE_5 := "RunTimeErrorNonDeterministicError"

  const STATUS_INDEX := [0, 6, 13, 20, 27, 33, 41, 65, 82, 100, 117, 129, 150]

  lemma {:induction false} ConcatAppend(a: seq<string>, b: seq<string>)
    ensures Concat(a + b) == Concat(a) + Concat(b)
    decreases |b|
  {
    if b == [] {
      assert a + b == a;
    } else {
      var front, last := b[..|b| - 1], b[|b| - 1];
      assert (a + b)[..|a + b| - 1] == a + front;
      ConcatAppend(a, front);
      assert Concat(a + b) == Concat(a) + Concat(front) + last;
    }
  }

  lemma ConcatTwo(parts: seq<string>)
    requires |parts| == 2
    ensures Concat(parts) == parts[0] + parts[1]
  {
    assert Concat(parts[..1]) == "" + parts[0];
  }

  lemma ConcatThree(parts: seq<string>)
    requires |parts| == 3
    ensures Concat(parts) == parts[0] + parts[1] + parts[2]
  {
    ConcatTwo(parts[..2]);
  }

  lemma Line1() ensures LINE_1 == NAMES[0] + NAMES[1] + NAMES[2] {}

  lemma Line2() ensures LINE_2 == NAMES[3] + NAMES[4] + NAMES[5] {}

  lemma Line3() ensures LINE_3 == NAMES[6] + NAMES[7] {}

  lemma Line4() ensures LINE_4 == NAMES[8] + NAMES[9] {}

  lemma Line5() ensures LINE_5 == NAMES[10] + NAMES[11] {}

  lemma LinesAreNames()
    ensures LINE_1 == Concat(NAMES[..3]) && LINE_2 == Concat(NAMES[3..6]) && LINE_3 == Concat(NAMES[6..8])
    ensures LINE_4 == Concat(NAMES[8..10]) && LINE_5 == Concat(NAMES[10..])
  {
    Line1(); Line2(); Line3(); Line4(); Line5();
    ConcatThree(NAMES[..3]);
    ConcatThree(NAMES[3..6]);
    ConcatTwo(NAMES[6..8]);
    ConcatTwo(NAMES[8..10]);
    ConcatTwo(NAMES[10..]);
  }

  lemma ConcatUpTo(i: nat, k: nat)
    requires i <= k <= 12
    ensures Concat(NAMES[..k]) == Concat(NAMES[..i]) + Concat(NAMES[i..k])
  {
    assert NAMES[..k] == NAMES[..i] + NAMES[i..k];
    ConcatAppend(NAMES[..i], NAMES[i..k]);
  }

  /** The string holds the names one after the other and nothing else. */
  lemma NamesInOrder()
    ensures STATUS_NAMES == Concat(NAMES)
  {
    LinesAreNames();
    ConcatUpTo(3, 6);
    ConcatUpTo(6, 8);
    ConcatUpTo(8, 10);
    ConcatUpTo(10, 12);
    assert NAMES[..12] == NAMES && NAMES[10..12] == NAMES[10..];
  }

  lemma {:induction false} ConcatPrefix(parts: seq<string>, i: nat)
    requires i <= |parts|
    ensures Concat(parts[..i]) <= Concat(parts)
    decreases |parts|
  {
    if i == |parts| {
      assert parts[..i] == parts;
    } else {
      ConcatPrefix(parts[..|parts| - 1], i);
      assert parts[..|parts| - 1][..i] == parts[..i];
    }
  }

  /** The table holds the lengths of the prefixes. */
  lemma {:induction false} IndexIsPrefixLength(i: nat)
    requires i <= 12
    ensures |Concat(NAMES[..i])| == STATUS_INDEX[i]
  {
    if i > 0 {
      IndexIsPrefixLength(i - 1);
      assert NAMES[..i][..i - 1] == NAMES[..i - 1];
    }
  }

  lemma TableInRange(i: nat)
    requires i < 12
    ensures 0 <= STATUS_INDEX[i] <= STATUS_INDEX[i + 1] <= |STATUS_NAMES|
    ensures STATUS_NAMES[STATUS_INDEX[i]..STATUS_INDEX[i + 1]] == NAMES[i]
  {
    NamesInOrder();
    IndexIsPrefixLength(i);
    IndexIsPrefixLength(i + 1);
    ConcatPrefix(NAMES, i + 1);
    var upTo := NAMES[..i + 1];
    assert upTo[..i] == NAMES[..i];
    assert Concat(upTo) == Concat(NAMES[..i]) + NAMES[i];
  }

  function StatusString(i: int): string {
    if i < 0 || i >= |STATUS_INDEX| - 1
    then "ContainerStatus(" + PrintInt(i) + ")"
    else TableInRange(i); STATUS_NAMES[STATUS_INDEX[i]..STATUS_INDEX[i + 1]]
  }

  /** The length, the first and the third byte of every name. */
  function Shape(i: int): (int, char, char)
    requires 0 <= i < 12
  {
    match i
    case 0 => (6, 'N', 't')
    case 1 => (7, 'C', 'e')
    case 2 => (7, 'R', 'n')
    case 3 => (7, 'K', 'l')
    case 4 => (6, 'K', 'l')
    case 5 => (8, 'F', 'n')
    case 6 => (24, 'M', 'm')
    case 7 => (17, 'T', 'm')
    case 8 => (18, 'P', 'o')
    case 9 => (17, 'C', 'm')
    case 10 => (12, 'R', 'n')
    case _ => (21, 'N', 'n')
  }

  predicate Fits(s: string, i: int) {
    0 <= i < 12 && |s| == Shape(i).0 && |s| > 2 && s[0] == Shape(i).1 && s[2] == Shape(i).2
  }

  lemma NameFits(i: int)
    requires 0 <= i < 12
    ensures Fits(NAMES[i], i)
  {
  }

  lemma NameShape(i: int)
    requires 0 <= i < 12
    ensures StatusString(i) == NAMES[i] && Fits(NAMES[i], i)
  {
    TableInRange(i);
    NameFits(i);
  }

  /** Each code of the program prints as its own name. */
  lemma CodesHaveNames()
    ensures StatusString(NOT_RAN) == "NotRan" && StatusString(CREATED) == "Created"
    ensures StatusString(RUNNING) == "Running" && StatusString(KILLING) == "Killing"
    ensures StatusString(KILLED) == "Killed" && StatusString(FINISHED) == "Finished"
    ensures StatusString(MEMORY_CONSTRAINT_EXCEEDED) == "MemoryConstraintExceeded"
    ensures StatusString(TIME_LIMIT_EXCEEDED) == "TimeLimitExceeded"
    ensures StatusString(PROVIDED_TEST_FAILED) == "ProvidedTestFailed"
    ensures StatusString(COMPILATION_FAILED) == "CompilationFailed"
    ensures StatusString(RUN_TIME_ERROR) == "RunTimeError"
    ensures StatusString(NON_DETERMINISTIC_ERROR) == "NonDeterministicError"
  {
    forall i | 0 <= i < 12 ensures StatusString(i) == NAMES[i] {
      TableInRange(i);
    }
  }

  predicate OutOfRangeName(s: string, i: int) {
    |s| >= 18 && s[0] == 'C' && s[2] == 'n' && s[16..|s| - 1] == PrintInt(i)
  }

  lemma OutOfRangeShape(i: int)
    requires !(0 <= i < 12)
    ensures OutOfRangeName(StatusString(i), i)
  {
  }

  /** The shape already tells every name from every other and from any "ContainerStatus(n)". */
  lemma ShapesTellApart(s: string, i: int, j: int)
    requires Fits(s, i)
    ensures Fits(s, j) ==> i == j
    ensures !OutOfRangeName(s, j)
  {
  }

  /** `String` never gives two statuses, in or out of range, the same text. */
  lemma StatusStringInjective(i: int, j: int)
    requires StatusString(i) == StatusString(j)
    ensures i == j
  {
    var s := StatusString(i);
    assert Fits(s, i) || OutOfRangeName(s, i) by {
      if 0 <= i < 12 { NameShape(i); } else { OutOfRangeShape(i); }
    }
    assert Fits(s, j) || OutOfRangeName(s, j) by {
      if 0 <= j < 12 { NameShape(j); } else { OutOfRangeShape(j); }
    }
    SameNameSameStatus(s, i, j);
  }

  lemma SameNameSameStatus(s: string, i: int, j: int)
    requires (Fits(s, i) || OutOfRangeName(s, i)) && (Fits(s, j) || OutOfRangeName(s, j))
    ensures i == j
  {
    if Fits(s, i) {
      ShapesTellApart(s, i, j);
    } else if Fits(s, j) {
      ShapesTellApart(s, j, i);
    } else {
      PrintIntInjective(i, j);
    }
  }
}
