/** How program output becomes the lines of a result: `bufio.ScanLines` with its default 64 KiB
    token limit, the first thousand lines, and the joined text that is uploaded; and how the
    standard-input items of a test become the input file. */
module Lines {
  import opened Text

  const MAX_TOKEN := 65536 // bufio.MaxScanTokenSize
  const MAX_LINES := 1000

  /** `raw` is `line` with a final carriage return, or `line` itself if it has none. */
  predicate LessOneCR(raw: string, line: string) {
    raw == line + "\r" || (raw == line && !EndsInCR(raw))
  }

  predicate EndsInCR(line: string) {
    line != "" && line[|line| - 1] == '\r'
  }

  function DropCR(line: string): (r: string)
    ensures LessOneCR(line, r)
  {
    if line != "" && line[|line| - 1] == '\r' then line[..|line| - 1] else line
  }

  /** What is left after the line that ends at `i`. */
  function After(text: string, i: nat): (rest: string)
    requires i <= |text|
    ensures text != "" ==> |rest| < |text|
  {
    if i < |text| then text[i + 1..] else ""
  }

  /** One call of `Scan`: no token at the end of input, nor when the line with its terminator
      (or the last line) does not fit the buffer. */
  function NextLine(text: string): (r: Option<(string, string)>)
    ensures r.Some? ==> |r.value.1| < |text|
  {
    var i := IndexOf(text, '\n');
    if text == "" || i >= MAX_TOKEN then None else Some((DropCR(text[..i]), After(text, i)))
  }

  /** Every line the scanner would produce. */
  function ScanAll(text: string): (lines: seq<string>)
    decreases |text|
  {
    match NextLine(text)
    case None => []
    case Some((line, rest)) => [line] + ScanAll(rest)
  }

  function Truncate(lines: seq<string>): seq<string> {
    if |lines| <= MAX_LINES then lines else lines[..MAX_LINES]
  }

  lemma ScanExtends(all: seq<string>, lines: seq<string>, rest: string)
    requires all == lines + ScanAll(rest) && NextLine(rest).Some?
    ensures all == lines + [NextLine(rest).value.0] + ScanAll(NextLine(rest).value.1)
  {
  }

  /** The scanning loop of the runner, once for each output file. */
  method ReadLines(text: string) returns (lines: seq<string>)
    ensures lines == Truncate(ScanAll(text))
    ensures KeptOf(lines, RawLines(text))
  {
    KeptLines(text);
    lines := [];
    var rest := text;
    ghost var all := ScanAll(text);
    var count := 0;
    while true
      invariant count == |lines| < MAX_LINES
      invariant all == lines + ScanAll(rest)
      decreases |rest|
    {
      var token := NextLine(rest);
      if token.None? {
        return;
      }
      ScanExtends(all, lines, rest);
      lines := lines + [token.value.0];
      rest := token.value.1;
      count := count + 1;
      if count >= MAX_LINES {
        assert all[..MAX_LINES] == lines;
        return;
      }
    }
  }

  // ---- The lines of a text, as a reader sees them

  /** The lines of a text without a scanner: cut at every newline; a trailing newline ends the
      last line and starts no further one. */
  function RawLines(text: string): (lines: seq<string>)
    decreases |text|
  {
    if text == "" then [] else
      var i := IndexOf(text, '\n');
      [text[..i]] + RawLines(After(text, i))
  }

  /** The text less one trailing newline. */
  function Chomp(text: string): string {
    if text != "" && text[|text| - 1] == '\n' then text[..|text| - 1] else text
  }

  /** A line the scanner returns untouched. */
  predicate CleanLine(line: string) {
    |line| < MAX_TOKEN && !EndsInCR(line)
  }

  predicate CleanText(text: string) {
    var lines := RawLines(text);
    |lines| <= MAX_LINES && forall i :: 0 <= i < |lines| ==> CleanLine(lines[i])
  }

  lemma LastRawLine(text: string, i: nat)
    requires text != "" && i == IndexOf(text, '\n') && After(text, i) == ""
    ensures text[..i] == Chomp(text)
  {
    if i == |text| {
      assert text[..i][|text| - 1] == text[|text| - 1];
    }
  }

  lemma ChompStep(text: string, i: nat)
    requires i < |text| && text[i] == '\n' && i + 1 < |text|
    ensures Chomp(text) == text[..i] + ['\n'] + Chomp(text[i + 1..])
  {
    var rest := text[i + 1..];
    assert text == text[..i] + ['\n'] + rest;
    assert rest[|rest| - 1] == text[|text| - 1];
  }

  lemma {:induction false} JoinRawLines(text: string)
    ensures Join(RawLines(text), '\n') == Chomp(text)
    decreases |text|
  {
    if text != "" {
      var i := IndexOf(text, '\n');
      var rest := After(text, i);
      var lines := RawLines(rest);
      if rest == "" {
        LastRawLine(text, i);
      } else {
        JoinRawLines(rest);
        ChompStep(text, i);
        assert ([text[..i]] + lines)[1..] == lines;
      }
    }
  }

  /** Scanned lines are the first raw lines less a carriage return each, up to one too long. */
  ghost predicate Follows(scanned: seq<string>, raw: seq<string>) {
    && |scanned| <= |raw|
    && (forall i :: 0 <= i < |scanned| ==> |raw[i]| < MAX_TOKEN && LessOneCR(raw[i], scanned[i]))
    && (|scanned| < |raw| ==> |raw[|scanned|]| >= MAX_TOKEN)
  }

  lemma FollowsOneMore(line: string, scanned: seq<string>, raw: seq<string>)
    requires Follows(scanned, raw) && |line| < MAX_TOKEN
    ensures Follows([DropCR(line)] + scanned, [line] + raw)
  {
  }

  /** The scanner's lines are, in order, the first raw lines less a carriage return each. */
  lemma {:induction false} ScanFollowsRaw(text: string)
    ensures Follows(ScanAll(text), RawLines(text))
    decreases |text|
  {
    var i := IndexOf(text, '\n');
    if text != "" && i < MAX_TOKEN {
      var rest := After(text, i);
      ScanFollowsRaw(rest);
      FollowsOneMore(text[..i], ScanAll(rest), RawLines(rest));
    }
  }

  /** The lines kept of a text, said of its raw lines alone: one carriage return less each, the first
      thousand of them, and none from the first that does not fit 64 KiB. */
  ghost predicate KeptOf(lines: seq<string>, raw: seq<string>) {
    && |lines| <= |raw| && |lines| <= 1000
    && (forall i :: 0 <= i < |lines| ==> |raw[i]| < 65536 && LessOneCR(raw[i], lines[i]))
    && (|lines| < |raw| ==> |lines| == 1000 || |raw[|lines|]| >= 65536)
  }

  lemma KeptLines(text: string)
    ensures KeptOf(Truncate(ScanAll(text)), RawLines(text))
  {
    ScanFollowsRaw(text);
  }

  /** The number of bytes a list of lines occupies in a file. */
  function Weight(lines: seq<string>): nat {
    if lines == [] then 0 else |lines[0]| + 1 + Weight(lines[1..])
  }

  lemma {:induction false} JoinLength(lines: seq<string>)
    ensures |Join(lines, '\n')| == if lines == [] then 0 else Weight(lines) - 1
  {
    if |lines| > 1 {
      JoinLength(lines[1..]);
    }
  }

  /** Fewer or shorter lines weigh less. */
  lemma {:induction false} WeightMonotone(a: seq<string>, b: seq<string>)
    requires |a| <= |b|
    requires forall i :: 0 <= i < |a| ==> |a[i]| <= |b[i]|
    ensures Weight(a) <= Weight(b)
    ensures Weight(a) == Weight(b) ==> |a| == |b| && forall i :: 0 <= i < |a| ==> |a[i]| == |b[i]|
  {
    if a != [] {
      WeightMonotone(a[1..], b[1..]);
      if Weight(a) == Weight(b) {
        forall i | 0 <= i < |a| ensures |a[i]| == |b[i]| {
          if i > 0 {
            assert |a[1..][i - 1]| == |b[1..][i - 1]|;
          }
        }
      }
    }
  }

  /** Lines that were dropped or shortened show in the length of the joined text. */
  lemma SameJoinSameLines(kept: seq<string>, raw: seq<string>)
    requires |kept| <= |raw|
    requires forall i :: 0 <= i < |kept| ==> |raw[i]| < MAX_TOKEN && LessOneCR(raw[i], kept[i])
    requires kept == [] && raw != [] ==> raw[0] != ""
    requires Join(kept, '\n') == Join(raw, '\n')
    ensures |kept| == |raw| && forall i :: 0 <= i < |raw| ==> CleanLine(raw[i])
  {
    JoinLength(raw);
    JoinLength(kept);
    WeightMonotone(kept, raw);
    forall i | 0 <= i < |raw| ensures CleanLine(raw[i]) {
      assert |kept[i]| == |raw[i]|;
    }
  }

  lemma CleanLinesStay(scanned: seq<string>, raw: seq<string>)
    requires Follows(scanned, raw) && forall i :: 0 <= i < |raw| ==> CleanLine(raw[i])
    ensures scanned == raw
  {
    forall i | 0 <= i < |scanned| ensures scanned[i] == raw[i] {
      assert LessOneCR(raw[i], scanned[i]);
    }
  }

  /** The uploaded output is the program's output less one trailing newline exactly when the
      output has at most a thousand lines, each short enough and without a final carriage return. */
  lemma UploadIsOutputIffClean(text: string)
    ensures Join(Truncate(ScanAll(text)), '\n') == Chomp(text) <==> CleanText(text)
  {
    var raw, kept := RawLines(text), Truncate(ScanAll(text));
    JoinRawLines(text);
    ScanFollowsRaw(text);
    if CleanText(text) {
      CleanLinesStay(ScanAll(text), raw);
    }
    if Join(kept, '\n') == Chomp(text) {
      SameJoinSameLines(kept, raw);
    }
  }

  /** For any text at all the kept lines are the first thousand of the full scan, and hold no newline. */
  lemma KeptLinesArePrefix(text: string)
    ensures var kept, all := Truncate(ScanAll(text)), ScanAll(text);
      && kept <= all && |kept| == (if |all| > 1000 then 1000 else |all|)
      && forall i :: 0 <= i < |kept| ==> '\n' !in kept[i] && |kept[i]| < 65536
  {
    ScanFollowsRaw(text);
    ScannedHasNoNewline(text);
  }

  lemma {:induction false} RawLinesHaveNoNewline(text: string)
    ensures forall i :: 0 <= i < |RawLines(text)| ==> '\n' !in RawLines(text)[i]
    decreases |text|
  {
    if text != "" {
      RawLinesHaveNoNewline(After(text, IndexOf(text, '\n')));
    }
  }

  // ---- Standard input

  /** The input file of a test: every item followed by a newline. */
  function InputText(items: seq<string>): string {
    if items == [] then "" else items[0] + "\n" + InputText(items[1..])
  }

  lemma {:induction false} InputTextAppend(items: seq<string>, item: string)
    ensures InputText(items + [item]) == InputText(items) + item + "\n"
  {
    if items == [] {
      assert items + [item] == [item];
    } else {
      InputTextAppend(items[1..], item);
      assert (items + [item])[1..] == items[1..] + [item];
    }
  }

  /** The loop of `prepare` over the standard-input items. */
  method WriteStandardInput(items: seq<string>) returns (text: string)
    ensures text == InputText(items)
  {
    text := "";
    for i := 0 to |items|
      invariant text == InputText(items[..i])
    {
      InputTextAppend(items[..i], items[i]);
      assert items[..i + 1] == items[..i] + [items[i]];
      text := text + items[i] + "\n";
    }
    assert items[..|items|] == items;
  }

  predicate CleanItem(item: string) {
    '\n' !in item && CleanLine(item)
  }

  predicate CleanItems(items: seq<string>) {
    |items| <= MAX_LINES && forall i :: 0 <= i < |items| ==> CleanItem(items[i])
  }

  lemma {:induction false} RawLinesOfInput(items: seq<string>)
    requires forall i :: 0 <= i < |items| ==> '\n' !in items[i]
    ensures RawLines(InputText(items)) == items
  {
    if items != [] {
      var text := InputText(items);
      assert text[..|items[0]|] == items[0];
      IndexOfIs(text, '\n', |items[0]|);
      assert After(text, |items[0]|) == InputText(items[1..]);
      RawLinesOfInput(items[1..]);
    }
  }

  /** A program that copies its input gives back the items exactly when there are at most a
      thousand and each is short, holds no newline and does not end in a carriage return. */
  lemma EchoIsIdentityIffClean(items: seq<string>)
    ensures Truncate(ScanAll(InputText(items))) == items <==> CleanItems(items)
  {
    var text := InputText(items);
    if Truncate(ScanAll(text)) == items {
      KeptLinesArePrefix(text);
      RawLinesOfInput(items);
      ScanFollowsRaw(text);
      forall i | 0 <= i < |items| ensures CleanItem(items[i]) {
        assert Truncate(ScanAll(text))[i] == ScanAll(text)[i];
      }
    }
    if CleanItems(items) {
      RawLinesOfInput(items);
      ScanFollowsRaw(text);
      CleanLinesStay(ScanAll(text), items);
    }
  }

  /** The items as a program writes them that ends its lines in carriage return and newline. */
  function CRLFText(items: seq<string>): string {
    if items == [] then "" else items[0] + "\r\n" + CRLFText(items[1..])
  }

  function WithCR(items: seq<string>): seq<string> {
    seq(|items|, i requires 0 <= i < |items| => items[i] + "\r")
  }

  lemma {:induction false} CRLFIsInput(items: seq<string>)
    ensures CRLFText(items) == InputText(WithCR(items))
  {
    if items != [] {
      CRLFIsInput(items[1..]);
      assert WithCR(items)[1..] == WithCR(items[1..]);
      assert items[0] + "\r\n" == items[0] + "\r" + "\n";
    }
  }

  lemma OnlyOneLess(item: string, line: string)
    requires LessOneCR(item + "\r", line)
    ensures line == item
  {
    assert (item + "\r")[..|item|] == item;
    assert (line + "\r")[..|line|] == line;
  }

  /** Against lines that all end in a carriage return, the scan stops at the first too long. */
  lemma ScannedWithCR(scanned: seq<string>, items: seq<string>)
    requires Follows(scanned, WithCR(items))
    ensures scanned == items <==> forall i :: 0 <= i < |items| ==> |items[i]| < 65535
  {
    var raw := WithCR(items);
    forall i | 0 <= i < |scanned| ensures scanned[i] == items[i] {
      assert LessOneCR(raw[i], scanned[i]);
      OnlyOneLess(items[i], scanned[i]);
    }
    if |scanned| < |items| {
      assert |raw[|scanned|]| == |items[|scanned|]| + 1;
    } else {
      assert forall i :: 0 <= i < |items| ==> |raw[i]| == |items[i]| + 1;
    }
  }

  lemma ScannedHasNoNewline(text: string)
    ensures forall i :: 0 <= i < |ScanAll(text)| ==> '\n' !in ScanAll(text)[i]
  {
    ScanFollowsRaw(text);
    RawLinesHaveNoNewline(text);
    forall i | 0 <= i < |ScanAll(text)| ensures '\n' !in ScanAll(text)[i] {
      assert LessOneCR(RawLines(text)[i], ScanAll(text)[i]);
    }
  }

  /** Line ends of two bytes are read as line ends: the scan gives the items back exactly when none
      holds a newline and each fits the buffer with its carriage return. */
  lemma CRLFLinesComeBack(items: seq<string>)
    ensures ScanAll(CRLFText(items)) == items <==>
      forall i :: 0 <= i < |items| ==> '\n' !in items[i] && |items[i]| < 65535
  {
    var text := CRLFText(items);
    if forall i :: 0 <= i < |items| ==> '\n' !in items[i] {
      CRLFIsInput(items);
      RawLinesOfInput(WithCR(items));
      ScanFollowsRaw(text);
      ScannedWithCR(ScanAll(text), items);
    } else {
      ScannedHasNoNewline(text);
    }
  }
}
