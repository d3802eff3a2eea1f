/** Reading `/proc/[pid]/stat` as laid out in proc(5): split at spaces, field 24 is the resident set
    size in pages. The reader does not treat the command name's parentheses specially. */
module ProcStat {
  import opened Text
  import opened Decimal
  import opened Sandbox

  const FIELDS := 52
  const NUMBERS := 49 // fields 4 to 52
  const RSS := 20     // field 24, among the numbers

  datatype Statistics = Statistics(pid: int, comm: string, state: string, numbers: seq<int>)

  ghost predicate WellFormed(st: Statistics) {
    |st.numbers| == NUMBERS && ' ' !in st.state
  }

  // ---- Writing, as the kernel does

  function Tail(st: Statistics): (fields: seq<string>)
    requires |st.numbers| == NUMBERS
  {
    [st.state] + seq(NUMBERS, i requires 0 <= i < NUMBERS =>
      PrintInt(st.numbers[i]) + if i == NUMBERS - 1 then "\n" else "")
  }

  function Print(st: Statistics): string
    requires |st.numbers| == NUMBERS
  {
    Join([PrintInt(st.pid)] + [st.comm] + Tail(st), ' ')
  }

  // ---- Reading

  /** `statFromProc`: with fewer than 52 fields an index is out of range. */
  function Read(text: string): (r: Outcome<Statistics>)
    ensures r.Ok? ==> |r.value.numbers| == NUMBERS
  {
    var infos := Split(text, ' ');
    if |infos| < FIELDS then Panic else
      Ok(Statistics(ParseInt64(infos[0]), infos[1], infos[2],
                    seq(NUMBERS, i requires 0 <= i < NUMBERS => ParseInt64(infos[3 + i]))))
  }

  /** int64 multiplication wraps around. */
  function Wrap64(n: int): (r: int)
    ensures MIN_INT64 <= r <= MAX_INT64
    ensures (n - r) % 0x1_0000_0000_0000_0000 == 0
    ensures MIN_INT64 <= n <= MAX_INT64 ==> r == n
  {
    (n - MIN_INT64) % 0x1_0000_0000_0000_0000 + MIN_INT64
  }

  function Memory(st: Statistics, pageSize: int): int
    requires |st.numbers| == NUMBERS
  {
    Wrap64(st.numbers[RSS] * pageSize)
  }

  // ---- Round trip

  lemma NumberIsClean(st: Statistics, i: nat)
    requires WellFormed(st) && i < NUMBERS
    ensures ' ' !in Tail(st)[1 + i]
  {
    PrintIntCharacters(st.numbers[i]);
  }

  lemma TailIsClean(st: Statistics)
    requires WellFormed(st)
    ensures forall p :: p in [PrintInt(st.pid)] + Tail(st) ==> ' ' !in p
  {
    var tail := Tail(st);
    PrintIntCharacters(st.pid);
    forall p | p in tail ensures ' ' !in p {
      var i :| 0 <= i < |tail| && tail[i] == p;
      if i > 0 {
        NumberIsClean(st, i - 1);
      }
    }
  }

  /** Whatever the command name holds, the reader sees its pieces as fields of their own. */
  lemma FieldsSeen(st: Statistics)
    requires WellFormed(st)
    ensures Split(Print(st), ' ') == [PrintInt(st.pid)] + Split(st.comm, ' ') + Tail(st)
  {
    TailIsClean(st);
    SplitJoinNested([PrintInt(st.pid)], st.comm, Tail(st), ' ');
  }

  lemma ParseWithNewline(n: int)
    ensures ParseInt64(PrintInt(n) + "\n") == 0
  {
    var s := PrintInt(n) + "\n";
    var digits := if s[0] == '-' || s[0] == '+' then s[1..] else s;
    assert digits[|digits| - 1] == '\n';
  }

  lemma InfosOfCleanName(st: Statistics)
    requires WellFormed(st) && ' ' !in st.comm
    ensures Split(Print(st), ' ') == [PrintInt(st.pid), st.comm] + Tail(st)
  {
    FieldsSeen(st);
    OnePartIffClean(st.comm, ' ');
    assert [PrintInt(st.pid)] + [st.comm] == [PrintInt(st.pid), st.comm];
  }

  /** The text of a number in the record. */
  lemma NumberText(st: Statistics, i: nat)
    requires |st.numbers| == NUMBERS && i < NUMBERS
    ensures Tail(st)[1 + i] == if i == NUMBERS - 1 then PrintInt(st.numbers[i]) + "\n" else PrintInt(st.numbers[i])
  {
    assert PrintInt(st.numbers[i]) + "" == PrintInt(st.numbers[i]);
  }

  lemma NumberField(st: Statistics, infos: seq<string>, i: nat)
    requires |st.numbers| == NUMBERS && i < NUMBERS && infos == [PrintInt(st.pid), st.comm] + Tail(st)
    ensures ParseInt64(infos[3 + i]) == if i == NUMBERS - 1 then 0 else Clamp(st.numbers[i])
  {
    NumberText(st, i);
    assert infos[3 + i] == Tail(st)[1 + i];
    ParseWithNewline(st.numbers[i]);
    ParsePrint(st.numbers[i]);
  }

  lemma ReadFields(text: string, infos: seq<string>)
    requires infos == Split(text, ' ') && |infos| >= FIELDS
    ensures Read(text).Ok?
    ensures var r := Read(text).value;
      && r.pid == ParseInt64(infos[0]) && r.comm == infos[1] && r.state == infos[2]
      && forall i :: 0 <= i < NUMBERS ==> r.numbers[i] == ParseInt64(infos[3 + i])
  {
  }

  /** For any text: it takes 52 fields, and the memory comes from field 24 of proc(5). */
  lemma MemoryIsField24(text: string, pageSize: int)
    ensures Read(text).Panic? <==> |Split(text, ' ')| < 52
    ensures Read(text).Ok? ==> Memory(Read(text).value, pageSize) == Wrap64(ParseInt64(Split(text, ' ')[24 - 1]) * pageSize)
  {
  }

  /** A record whose command name has no space comes back field by field, each number saturated to
      int64 on its own; only the last field is lost to the newline after it. */
  lemma StatRoundTrip(st: Statistics)
    requires WellFormed(st) && ' ' !in st.comm
    ensures Read(Print(st)).Ok?
    ensures var r := Read(Print(st)).value;
      && r.pid == Clamp(st.pid) && r.comm == st.comm && r.state == st.state
      && (forall i :: 0 <= i < NUMBERS - 1 ==> r.numbers[i] == Clamp(st.numbers[i]))
      && r.numbers[NUMBERS - 1] == 0
  {
    InfosOfCleanName(st);
    var text := Print(st);
    var infos := [PrintInt(st.pid), st.comm] + Tail(st);
    ReadFields(text, infos);
    ParsePrint(st.pid);
    forall i | 0 <= i < NUMBERS
      ensures Read(text).value.numbers[i] == if i == NUMBERS - 1 then 0 else Clamp(st.numbers[i])
    {
      NumberField(st, infos, i);
    }
  }

  /** So the reported memory is the resident set size in bytes when that fits an int64. */
  lemma MemoryIsRss(st: Statistics, pageSize: int)
    requires WellFormed(st) && ' ' !in st.comm
    requires MIN_INT64 <= st.numbers[RSS] <= MAX_INT64 && MIN_INT64 <= st.numbers[RSS] * pageSize <= MAX_INT64
    ensures Read(Print(st)).Ok? && Memory(Read(Print(st)).value, pageSize) == st.numbers[RSS] * pageSize
  {
    StatRoundTrip(st);
  }

  // ---- Command names with spaces

  /** With spaces in the name the field read as resident set size is another one: it does not
      depend on the real one at all. */
  lemma SpacesHideRss(st: Statistics, rss: int)
    requires WellFormed(st) && ' ' in st.comm
    ensures Read(Print(st)).Ok?
    ensures var other := st.(numbers := st.numbers[RSS := rss]);
      Read(Print(other)).Ok? && Read(Print(other)).value.numbers[RSS] == Read(Print(st)).value.numbers[RSS]
  {
    var other := st.(numbers := st.numbers[RSS := rss]);
    FieldsSeen(st);
    FieldsSeen(other);
    var name := Split(st.comm, ' ');
    OnePartIffClean(st.comm, ' ');
    var a, b := Split(Print(st), ' '), Split(Print(other), ' ');
    assert forall i :: 0 <= i < |Tail(st)| && i != RSS + 1 ==> Tail(other)[i] == Tail(st)[i];
    assert a[3 + RSS] == b[3 + RSS];
  }

  /** The reader gives the resident set size for every process with this command name exactly when
      the name has no space. */
  lemma ReadsRssIffNameHasNoSpace(comm: string)
    ensures (forall st :: WellFormed(st) && st.comm == comm ==>
               Read(Print(st)).Ok? && Read(Print(st)).value.numbers[RSS] == Clamp(st.numbers[RSS]))
            <==> ' ' !in comm
  {
    if ' ' in comm {
      var st := Statistics(1, comm, "R", seq(NUMBERS, _ => 0));
      SpacesHideRss(st, 1);
      var other := st.(numbers := st.numbers[RSS := 1]);
      assert WellFormed(st) && WellFormed(other);
      assert st.comm == comm && other.comm == comm;
    } else {
      forall st | WellFormed(st) && st.comm == comm
        ensures Read(Print(st)).Ok? && Read(Print(st)).value.numbers[RSS] == Clamp(st.numbers[RSS])
      {
        StatRoundTrip(st);
      }
    }
  }
}
