/** Where a file of an execution is written: `filepath.Join` under an absolute root, with the lexical
    cleaning it does. */
module Paths {
  import opened Text

  predicate Special(part: string) {
    part == "" || part == "." || part == ".."
  }

  /** Empty and dot parts vanish, a double dot removes the part before it, none above the root. */
  function Resolve(stack: seq<string>, parts: seq<string>): (r: seq<string>)
    decreases |parts|
  {
    if parts == [] then stack
    else if parts[0] == ".." then Resolve(if stack == [] then [] else stack[..|stack| - 1], parts[1..])
    else if Special(parts[0]) then Resolve(stack, parts[1..])
    else Resolve(stack + [parts[0]], parts[1..])
  }

  function Clean(path: string): string {
    "/" + Join(Resolve([], Split(path, '/')), '/')
  }

  function JoinPath(directory: string, name: string): string {
    Clean(directory + "/" + name)
  }

  /** The folder of the execution, then the file in it. */
  function FilePath(root: string, id: string, name: string): string {
    JoinPath(JoinPath(root, id), name)
  }

  // ---- Cleaning twice is cleaning once

  predicate Plain(parts: seq<string>) {
    forall i :: 0 <= i < |parts| ==> !Special(parts[i]) && '/' !in parts[i]
  }

  lemma {:induction false} ResolveConcat(stack: seq<string>, a: seq<string>, b: seq<string>)
    ensures Resolve(stack, a + b) == Resolve(Resolve(stack, a), b)
    decreases |a|
  {
    if a == [] {
      assert a + b == b;
    } else {
      assert (a + b)[1..] == a[1..] + b;
      var next := if a[0] == ".." then if stack == [] then [] else stack[..|stack| - 1]
                  else if Special(a[0]) then stack else stack + [a[0]];
      ResolveConcat(next, a[1..], b);
    }
  }

  lemma {:induction false} ResolvePlain(stack: seq<string>, parts: seq<string>)
    requires Plain(parts)
    ensures Resolve(stack, parts) == stack + parts
    decreases |parts|
  {
    if parts != [] {
      ResolvePlain(stack + [parts[0]], parts[1..]);
      assert stack + parts == stack + [parts[0]] + parts[1..];
    }
  }

  lemma {:induction false} ResolveIsPlain(stack: seq<string>, parts: seq<string>)
    requires Plain(stack) && forall p :: p in parts ==> '/' !in p
    ensures Plain(Resolve(stack, parts))
    decreases |parts|
  {
    if parts != [] {
      var next := if parts[0] == ".." then if stack == [] then [] else stack[..|stack| - 1]
                  else if Special(parts[0]) then stack else stack + [parts[0]];
      ResolveIsPlain(next, parts[1..]);
    }
  }

  lemma SplitConcat(a: string, b: string)
    ensures Split(a + "/" + b, '/') == Split(a, '/') + Split(b, '/')
  {
    JoinSplit(a, '/');
    JoinSplit(b, '/');
    JoinConcat(Split(a, '/'), Split(b, '/'), '/');
    SplitPartsClean(a, '/');
    SplitPartsClean(b, '/');
    SplitJoin(Split(a, '/') + Split(b, '/'), '/');
  }

  function Parts(path: string): seq<string> {
    Resolve([], Split(path, '/'))
  }

  lemma PartsOfClean(path: string)
    ensures Parts(Clean(path)) == Parts(path)
  {
    var parts := Parts(path);
    SplitPartsClean(path, '/');
    ResolveIsPlain([], Split(path, '/'));
    SplitConcat("", Join(parts, '/'));
    assert "" + "/" + Join(parts, '/') == Clean(path);
    OnePartIffClean("", '/');
    ResolveConcat([], [""], Split(Join(parts, '/'), '/'));
    assert Resolve([], [""]) == [] by { assert [""][1..] == []; }
    if parts == [] {
      assert [""][1..] == [];
    } else {
      SplitJoin(parts, '/');
      ResolvePlain([], parts);
    }
  }

  lemma PartsOfJoin(a: string, b: string)
    ensures Parts(JoinPath(a, b)) == Resolve(Parts(a), Split(b, '/'))
  {
    PartsOfClean(a + "/" + b);
    SplitConcat(a, b);
    ResolveConcat([], Split(a, '/'), Split(b, '/'));
  }

  /** Where a file goes depends only on the path its id and name spell out together, so different
      pairs can meet: a slash may stand in the id or in the name. */
  lemma PairsShareAPath(root: string, a: string, b: string, c: string)
    ensures FilePath(root, a, b + "/" + c) == FilePath(root, a + "/" + b, c)
  {
    SplitConcat(a, b);
    SplitConcat(b, c);
    PartsOfJoin(root, a);
    PartsOfJoin(root, a + "/" + b);
    ResolveConcat(Parts(root), Split(a, '/'), Split(b, '/'));
    PathOf(JoinPath(root, a), b + "/" + c);
    PathOf(JoinPath(root, a + "/" + b), c);
    ResolveConcat(Parts(JoinPath(root, a)), Split(b, '/'), Split(c, '/'));
  }

  lemma PathOf(a: string, b: string)
    ensures JoinPath(a, b) == "/" + Join(Resolve(Parts(a), Split(b, '/')), '/')
  {
    SplitConcat(a, b);
    ResolveConcat([], Split(a, '/'), Split(b, '/'));
  }

  lemma OnePlain(part: string)
    requires Plain([part])
    ensures Split(part, '/') == [part]
  {
    assert [part][0] == part;
    OnePartIffClean(part, '/');
  }

  /** An id and a name without slashes or dots of their own name a file right under the root. */
  lemma PlainPath(root: string, id: string, name: string)
    requires Plain([id]) && Plain([name])
    ensures FilePath(root, id, name) == "/" + Join(Parts(root) + [id] + [name], '/')
    ensures Parts(FilePath(root, id, name)) == Parts(root) + [id] + [name]
  {
    OnePlain(id);
    OnePlain(name);
    PartsOfJoin(root, id);
    ResolvePlain(Parts(root), [id]);
    ResolvePlain(Parts(root) + [id], [name]);
    PathOf(JoinPath(root, id), name);
    PartsOfJoin(JoinPath(root, id), name);
  }

  lemma ResolveOne(stack: seq<string>, part: string)
    requires Special(part)
    ensures Resolve(stack, [part]) == if part == ".." && stack != [] then stack[..|stack| - 1] else stack
  {
    assert [part][1..] == [];
  }

  /** A double dot in the name leaves the folder of the execution; an empty name or a dot names it. */
  lemma SpecialNames(root: string, id: string, name: string)
    requires Plain([id])
    ensures FilePath(root, id, "..") == Clean(root)
    ensures FilePath(root, id, "../" + name) == JoinPath(root, name)
    ensures FilePath(root, id, "") == FilePath(root, id, ".") == JoinPath(root, id)
  {
    OnePlain(id);
    PartsOfJoin(root, id);
    ResolvePlain(Parts(root), [id]);
    var folder := Parts(root) + [id];
    assert folder[..|folder| - 1] == Parts(root);
    ResolveOne(folder, "..");
    ResolveOne(folder, "");
    ResolveOne(folder, ".");
    OnePartIffClean("..", '/');
    OnePartIffClean("", '/');
    OnePartIffClean(".", '/');
    SplitConcat("..", name);
    assert ".." + "/" + name == "../" + name;
    ResolveConcat(folder, [".."], Split(name, '/'));
    PathOf(JoinPath(root, id), "..");
    PathOf(JoinPath(root, id), "../" + name);
    PathOf(JoinPath(root, id), "");
    PathOf(JoinPath(root, id), ".");
    PathOf(root, name);
    PathOf(root, id);
  }
}
