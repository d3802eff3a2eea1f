/** Go strings are byte sequences; here every `char` of a `string` stands for one byte.
    `Split` and `Join` are `strings.Split` and `strings.Join` for a one-byte separator. */
module Text {

  datatype Option<+T> = None | Some(value: T)

  /** Position of the first `c` in `s`, or `|s|` when there is none. */
  function IndexOf(s: string, c: char): (i: nat)
    ensures i <= |s|
    ensures c !in s[..i]
    ensures i < |s| ==> s[i] == c
  {
    if s == "" || s[0] == c then 0 else
      var i := IndexOf(s[1..], c) + 1;
      assert s[..i] == [s[0]] + s[1..][..i - 1];
      i
  }

  lemma {:induction false} IndexOfIs(s: string, c: char, i: nat)
    requires i <= |s| && c !in s[..i]
    requires i < |s| ==> s[i] == c
    ensures IndexOf(s, c) == i
  {
    if i > 0 {
      assert s[..i][0] == s[0];
      assert s[1..][..i - 1] == s[..i][1..];
      IndexOfIs(s[1..], c, i - 1);
    }
  }

  function Split(s: string, sep: char): (parts: seq<string>)
    ensures parts != []
    decreases |s|
  {
    var i := IndexOf(s, sep);
    if i == |s| then [s] else [s[..i]] + Split(s[i + 1..], sep)
  }

  function Join(parts: seq<string>, sep: char): string
  {
    if parts == [] then ""
    else if |parts| == 1 then parts[0]
    else parts[0] + [sep] + Join(parts[1..], sep)
  }

  /** Joining undoes splitting, for every text. */
  lemma {:induction false} JoinSplit(s: string, sep: char)
    ensures Join(Split(s, sep), sep) == s
    decreases |s|
  {
    var i := IndexOf(s, sep);
    if i < |s| {
      var tail := Split(s[i + 1..], sep);
      JoinSplit(s[i + 1..], sep);
      assert ([s[..i]] + tail)[1..] == tail;
    }
  }

  /** The part before the first separator is split off first. */
  lemma SplitStep(head: string, tail: string, sep: char)
    requires sep !in head
    ensures Split(head + [sep] + tail, sep) == [head] + Split(tail, sep)
  {
    var s := head + [sep] + tail;
    assert s[..|head|] == head;
    IndexOfIs(s, sep, |head|);
    assert s[|head| + 1..] == tail;
  }

  /** Splitting undoes joining when no part holds the separator. */
  lemma {:induction false} SplitJoin(parts: seq<string>, sep: char)
    requires parts != []
    requires forall p :: p in parts ==> sep !in p
    ensures Split(Join(parts, sep), sep) == parts
  {
    if |parts| == 1 {
      assert parts[0][..|parts[0]|] == parts[0];
      IndexOfIs(parts[0], sep, |parts[0]|);
    } else {
      SplitJoin(parts[1..], sep);
      SplitStep(parts[0], Join(parts[1..], sep), sep);
      assert parts == [parts[0]] + parts[1..];
    }
  }

  lemma OnePartIffClean(s: string, sep: char)
    ensures sep !in s ==> Split(s, sep) == [s]
    ensures sep in s ==> |Split(s, sep)| > 1
  {
    assert s[..|s|] == s;
    if sep !in s {
      IndexOfIs(s, sep, |s|);
    }
  }

  lemma {:induction false} SplitPartsClean(s: string, sep: char)
    ensures forall p :: p in Split(s, sep) ==> sep !in p
    decreases |s|
  {
    var i := IndexOf(s, sep);
    if i < |s| {
      SplitPartsClean(s[i + 1..], sep);
    } else {
      assert s[..i] == s;
    }
  }

  lemma {:induction false} JoinConcat(a: seq<string>, b: seq<string>, sep: char)
    requires a != [] && b != []
    ensures Join(a + b, sep) == Join(a, sep) + [sep] + Join(b, sep)
  {
    if |a| == 1 {
      assert (a + b)[1..] == b;
    } else {
      assert (a + b)[1..] == a[1..] + b;
      JoinConcat(a[1..], b, sep);
    }
  }

  /** Splitting sees through a part that holds separators itself. */
  lemma SplitJoinNested(a: seq<string>, c: string, b: seq<string>, sep: char)
    requires a != [] && b != []
    requires forall p :: p in a + b ==> sep !in p
    ensures Split(Join(a + [c] + b, sep), sep) == a + Split(c, sep) + b
  {
    var parts := a + Split(c, sep) + b;
    JoinConcat(a + [c], b, sep);
    JoinConcat(a, [c], sep);
    JoinConcat(a + Split(c, sep), b, sep);
    JoinConcat(a, Split(c, sep), sep);
    JoinSplit(c, sep);
    SplitPartsClean(c, sep);
    forall p | p in parts ensures sep !in p {
      assert p in a + b || p in Split(c, sep);
    }
    SplitJoin(parts, sep);
  }
}
