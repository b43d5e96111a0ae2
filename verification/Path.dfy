/** Path components: a cursor that takes components off both ends of one list. */
module Path {
  import opened Options

  const SLASH: char := '/'

  datatype Component = RootDir | CurDir | ParentDir | Normal(name: string)

  function Classify(name: string): Component {
    if name == ".." then ParentDir else if name == "." then CurDir else Normal(name)
  }

  /** `as_os_str`. */
  function Text(c: Component): string {
    match c
    case RootDir => "/"
    case CurDir => "."
    case ParentDir => ".."
    case Normal(name) => name
  }

  // ----- the component list of a path -----

  /** Length of the longest prefix without a slash. */
  function Run(p: string): (n: nat)
    ensures n <= |p| && (forall i {:trigger p[i]} :: 0 <= i < n ==> p[i] != SLASH) && (n < |p| ==> p[n] == SLASH)
  {
    if p == [] || p[0] == SLASH then 0 else
    var n := Run(p[1..]);
    assert forall i :: 0 < i < 1 + n ==> p[i] == p[1..][i - 1];
    1 + n
  }

  /** The stretches between slashes, in order; empty ones do not count. */
  function Names(p: string): seq<Component>
    decreases |p|
  {
    if p == [] then []
    else if p[0] == SLASH then Names(p[1..])
    else [Classify(p[..Run(p)])] + Names(p[Run(p)..])
  }

  /** The components of a path as its text stands. */
  function Parse(p: string): seq<Component> {
    (if p != [] && p[0] == SLASH then [RootDir] else []) + Names(p)
  }

  ghost predicate Plain(s: string) {
    forall i {:trigger s[i]} :: 0 <= i < |s| ==> s[i] != SLASH
  }

  lemma {:induction false} RunIs(p: string, n: nat)
    requires n <= |p| && Plain(p[..n]) && (n < |p| ==> p[n] == SLASH)
    ensures Run(p) == n
    decreases n
  {
    if n > 0 {
      assert p[..n][0] == p[0] && p[1..][..n - 1] == p[..n][1..];
      RunIs(p[1..], n - 1);
    }
  }

  lemma RunJoin(a: string, b: string)
    ensures Run(a + [SLASH] + b) == Run(a)
  {
    var p, n := a + [SLASH] + b, Run(a);
    assert p[..n] == a[..n];
    RunIs(p, n);
  }

  lemma NamesStep(p: string)
    requires p != [] && p[0] != SLASH
    ensures Names(p) == [Classify(p[..Run(p)])] + Names(p[Run(p)..]) && 0 < Run(p)
  {
  }

  /** A slash anywhere cuts the list in two. */
  lemma {:induction false} NamesJoin(a: string, b: string)
    ensures Names(a + [SLASH] + b) == Names(a) + Names(b)
    decreases |a|
  {
    var p := a + [SLASH] + b;
    if a == [] {
      assert p == [SLASH] + b && p[1..] == b;
    } else if a[0] == SLASH {
      assert p[1..] == a[1..] + [SLASH] + b;
      NamesJoin(a[1..], b);
    } else {
      hide Names, Run, Classify;
      RunJoin(a, b);
      NamesStep(a);
      NamesStep(p);
      var n := Run(a);
      assert p[..n] == a[..n] && p[n..] == a[n..] + [SLASH] + b;
      NamesJoin(a[n..], b);
    }
  }

  lemma NamesPlain(s: string)
    requires Plain(s) && s != []
    ensures Names(s) == [Classify(s)]
  {
    assert s[..|s|] == s && s[|s|..] == [];
    RunIs(s, |s|);
  }

  lemma TrimmedFront(p: string)
    requires p != [] && p[0] == SLASH
    ensures Names(p[1..]) == Names(p)
  {
  }

  lemma TrimmedBack(p: string)
    requires p != [] && p[|p| - 1] == SLASH
    ensures Names(p[..|p| - 1]) == Names(p)
  {
    assert p == p[..|p| - 1] + [SLASH] + [];
    NamesJoin(p[..|p| - 1], []);
  }

  /** The text of a path with these names, absolute or not. */
  function PathOf(root: bool, names: seq<string>): string {
    var n := |names| - 1;
    if n < 0 then if root then [SLASH] else []
    else if n == 0 then (if root then [SLASH] else []) + names[0]
    else PathOf(root, names[..n]) + [SLASH] + names[n]
  }

  ghost predicate AllNames(names: seq<string>) {
    forall j {:trigger names[j]} :: 0 <= j < |names| ==> names[j] != [] && Plain(names[j])
  }

  lemma {:induction false} PathStarts(root: bool, names: seq<string>)
    requires AllNames(names)
    ensures var p := PathOf(root, names); (p != [] && p[0] == SLASH) <==> root
    ensures names != [] ==> PathOf(root, names) != []
    decreases |names|
  {
    var n := |names| - 1;
    if n == 0 {
      assert names[0][0] != SLASH;
    } else if n > 0 {
      assert forall j {:trigger names[..n][j]} :: 0 <= j < n ==> names[..n][j] == names[j];
      PathStarts(root, names[..n]);
    }
  }

  lemma {:induction false} NamesReadBack(root: bool, names: seq<string>, i: nat)
    requires AllNames(names) && i < |names|
    ensures var list := Names(PathOf(root, names));
      |list| == |names| &&
      list[i] == (if names[i] == ".." then ParentDir else if names[i] == "." then CurDir else Normal(names[i]))
    decreases |names|
  {
    hide Names, Run;
    var n := |names| - 1;
    NamesPlain(names[n]);
    if n == 0 {
      if root { TrimmedFront([SLASH] + names[0]); }
      assert ([SLASH] + names[0])[1..] == names[0] && [] + names[0] == names[0];
    } else {
      var front := names[..n];
      NamesJoin(PathOf(root, front), names[n]);
      assert forall j {:trigger front[j]} :: 0 <= j < n ==> front[j] == names[j];
      NamesReadBack(root, front, if i < n then i else 0);
    }
  }

  /** Any list of names without slashes is read back name by name: ".." as the parent, "." as the directory itself,
      anything else as it is. A leading slash, and nothing else, is the root. */
  lemma ReadBack(root: bool, names: seq<string>, i: nat)
    requires AllNames(names)
    ensures var list, d := Parse(PathOf(root, names)), if root then 1 else 0;
      && |list| == d + |names| && (root ==> list[0] == RootDir)
      && (i < |names| ==>
           list[d + i] == if names[i] == ".." then ParentDir else if names[i] == "." then CurDir else Normal(names[i]))
  {
    hide Names, Classify;
    PathStarts(root, names);
    if names == [] { RootAlone(); } else { NamesReadBack(root, names, if i < |names| then i else 0); }
  }

  // ----- the cursor -----

  /** What a cursor still has to yield. */
  ghost function Rest(path: string, hasRootDir: bool): seq<Component> {
    (if hasRootDir then [RootDir] else []) + Names(path)
  }

  /** Kept between calls: no stray slashes, so the text parses to what is left. */
  ghost predicate Tidy(path: string, hasRootDir: bool) {
    && (hasRootDir ==> path != [] && path[0] == SLASH && (|path| == 1 || path[|path| - 1] != SLASH))
    && (!hasRootDir && path != [] ==> path[0] != SLASH && path[|path| - 1] != SLASH)
  }

  /** The text a tidy cursor stands on parses to exactly the components it has not yielded. */
  lemma TidyParses(path: string, hasRootDir: bool)
    requires Tidy(path, hasRootDir)
    ensures Parse(path) == Rest(path, hasRootDir)
  {
  }

  class Components {
    var path: string
    var hasRootDir: bool

    ghost predicate Valid()
      reads this
    {
      Tidy(path, hasRootDir)
    }

    ghost function List(): seq<Component>
      reads this
    {
      Rest(path, hasRootDir)
    }

    /** `Components::new`. */
    constructor (p: string)
      ensures Valid() && List() == Parse(p)
    {
      path, hasRootDir := p, p != [] && p[0] == SLASH;
      new;
      TrimLeadingSlashes();
      TrimTrailingSlashes();
    }

    /** The clone of a cursor. */
    constructor Clone(c: Components)
      requires c.Valid()
      ensures Valid() && path == c.path && hasRootDir == c.hasRootDir
    {
      path, hasRootDir := c.path, c.hasRootDir;
    }

    method TrimLeadingSlashes()
      modifies this`path
      ensures List() == old(List()) && (hasRootDir ==> path == old(path))
      ensures (!hasRootDir && path != [] ==> path[0] != SLASH)
      ensures |path| <= |old(path)| && path == old(path)[|old(path)| - |path|..]
    {
      if hasRootDir { return; }
      while path != [] && path[0] == SLASH
        invariant |path| <= |old(path)| && path == old(path)[|old(path)| - |path|..] && Names(path) == Names(old(path))
        decreases |path|
      {
        TrimmedFront(path);
        path := path[1..];
      }
    }

    method TrimTrailingSlashes()
      requires hasRootDir ==> path != []
      modifies this`path
      ensures List() == old(List()) && |path| <= |old(path)| && path == old(path)[..|path|]
      ensures hasRootDir ==> path != [] && (|path| == 1 || path[|path| - 1] != SLASH)
      ensures !hasRootDir && path != [] ==> path[|path| - 1] != SLASH
    {
      while (!hasRootDir || |path| > 1) && path != [] && path[|path| - 1] == SLASH
        invariant |path| <= |old(path)| && path == old(path)[..|path|] && Names(path) == Names(old(path))
        invariant (hasRootDir ==> path != [])
        decreases |path|
      {
        TrimmedBack(path);
        path := path[..|path| - 1];
      }
    }

    /** `next`: the first component left. */
    method Next() returns (r: Option<Component>)
      requires Valid()
      modifies this
      ensures Valid()
      ensures old(List()) == [] ==> r == None && List() == []
      ensures old(List()) != [] ==> r == Some(old(List())[0]) && List() == old(List())[1..]
    {
      hide Names, Classify;
      RootAlone();
      if path == [] { return None; }
      if hasRootDir && path[0] == SLASH {
        hasRootDir := false;
        TrimLeadingSlashes();
        assert old(List())[1..] == Names(old(path));
        return Some(RootDir);
      }
      var i := 0;
      while i < |path| && path[i] != SLASH
        invariant i <= |path| && path == old(path) && forall j {:trigger path[j]} :: 0 <= j < i ==> path[j] != SLASH
      {
        i := i + 1;
      }
      var comp := path[..i];
      FirstCut(path, i);
      path := if i < |path| then path[i + 1..] else [];
      TrimLeadingSlashes();
      r := Some(Classify(comp));
    }

    /** `next_back`: the last component left. */
    method NextBack() returns (r: Option<Component>)
      requires Valid()
      modifies this
      ensures Valid()
      ensures old(List()) == [] ==> r == None && List() == []
      ensures old(List()) != [] ==>
        r == Some(old(List())[|old(List())| - 1]) && List() == old(List())[..|old(List())| - 1]
    {
      hide Names, Classify;
      RootAlone();
      if hasRootDir && path == [SLASH] {
        hasRootDir, path := false, [];
        return Some(RootDir);
      }
      if path == [] { return None; }
      var i := |path|;
      while i > 0 && path[i - 1] != SLASH
        invariant 0 <= i <= |path| && path == old(path) && hasRootDir == old(hasRootDir)
        invariant forall j {:trigger path[j]} :: i <= j < |path| ==> path[j] != SLASH
      {
        i := i - 1;
      }
      var comp := path[i..];
      LastCut(path, i);
      if i <= 1 && hasRootDir {
        path := path[..1];
        assert path == [SLASH];
      } else {
        path := if i == 0 then [] else path[..i - 1];
      }
      TrimTrailingSlashes();
      r := Some(Classify(comp));
    }

    /** `as_path`. */
    method AsPath() returns (p: string)
      requires Valid()
      ensures p == path && Parse(p) == List()
    {
      TidyParses(path, hasRootDir);
      p := path;
    }
  }

  lemma RootAlone()
    ensures Names([SLASH]) == [] && Names([]) == []
  {
    assert [SLASH][1..] == [];
  }

  lemma FirstCut(path: string, i: nat)
    requires 0 < i <= |path| && Plain(path[..i]) && (i < |path| ==> path[i] == SLASH)
    ensures Names(path) == [Classify(path[..i])] + Names(if i < |path| then path[i + 1..] else [])
  {
    NamesPlain(path[..i]);
    if i < |path| {
      assert path == path[..i] + [SLASH] + path[i + 1..];
      NamesJoin(path[..i], path[i + 1..]);
    } else {
      assert path[..i] == path;
    }
  }

  lemma LastCut(path: string, i: nat)
    requires i < |path| && Plain(path[i..]) && (0 < i ==> path[i - 1] == SLASH)
    ensures Names(path) == Names(if i == 0 then [] else path[..i - 1]) + [Classify(path[i..])]
  {
    NamesPlain(path[i..]);
    if i > 0 {
      assert path == path[..i - 1] + [SLASH] + path[i..];
      NamesJoin(path[..i - 1], path[i..]);
    } else {
      assert path[i..] == path;
    }
  }

  // ----- operations on paths -----

  /** Any mix of `next` and `next_back` takes components off the two ends of the list of the path, and what is
      left parses to the middle. */
  method TakeEnds(p: string, fromFront: seq<bool>) returns (front: seq<Component>, rest: string, back: seq<Component>)
    ensures front + Parse(rest) + back == Parse(p)
    ensures |Parse(rest)| == if |fromFront| < |Parse(p)| then |Parse(p)| - |fromFront| else 0
  {
    hide Parse, Rest, Tidy;
    var c := new Components(p);
    front, back := [], [];
    var n := 0;
    while n < |fromFront|
      invariant n <= |fromFront| && fresh(c) && c.Valid() && front + c.List() + back == Parse(p)
      invariant |c.List()| == if n < |Parse(p)| then |Parse(p)| - n else 0
    {
      ghost var list := c.List();
      if fromFront[n] {
        var x := c.Next();
        if x.Some? {
          assert list == [x.value] + c.List();
          front := front + [x.value];
        }
      } else {
        var x := c.NextBack();
        if x.Some? {
          assert list == c.List() + [x.value];
          back := [x.value] + back;
        }
      }
      n := n + 1;
    }
    rest := c.AsPath();
  }

  /** `iter_after`: what is left of `iter` after `prefix`, if it starts with it. Returned as the text left. */
  method IterAfter(p: string, base: string) returns (r: Option<string>)
    ensures r.Some? <==> Parse(base) <= Parse(p)
    ensures r.Some? ==> Parse(base) + Parse(r.value) == Parse(p)
  {
    hide Parse, Rest, Tidy;
    var iter := new Components(p);
    var prefix := new Components(base);
    ghost var done: seq<Component> := [];
    while true
      invariant fresh(iter) && fresh(prefix) && iter != prefix && iter.Valid() && prefix.Valid()
      invariant done + iter.List() == Parse(p) && done + prefix.List() == Parse(base)
      decreases |prefix.List()|
    {
      var iterNext := new Components.Clone(iter);
      ghost var a, b := iter.List(), prefix.List();
      var x := iterNext.Next();
      var y := prefix.Next();
      if y.None? {
        var rest := iter.AsPath();
        Ended(done, a);
        return Some(rest);
      }
      if x.None? || x.value != y.value {
        Mismatch(done, a, b);
        return None;
      }
      Advanced(done, a);
      Advanced(done, b);
      done := done + [x.value];
      iter := iterNext;
    }
  }

  lemma Advanced(done: seq<Component>, a: seq<Component>)
    requires a != []
    ensures (done + [a[0]]) + a[1..] == done + a
  {
  }

  lemma Ended(done: seq<Component>, a: seq<Component>)
    ensures done + [] == done && done <= done + a
  {
  }

  lemma Mismatch(done: seq<Component>, a: seq<Component>, b: seq<Component>)
    requires b != [] && (a == [] || a[0] != b[0])
    ensures !(done + b <= done + a)
  {
    var x, y := done + a, done + b;
    assert y[|done|] == b[0];
    if a != [] { assert x[|done|] == a[0]; }
  }

  /** `starts_with`. */
  method StartsWith(p: string, base: string) returns (r: bool)
    ensures r <==> Parse(base) <= Parse(p)
  {
    var rest := IterAfter(p, base);
    r := rest.Some?;
  }

  /** `strip_prefix`. */
  method StripPrefix(p: string, base: string) returns (r: Option<string>)
    ensures r.Some? <==> Parse(base) <= Parse(p)
    ensures r.Some? ==> Parse(base) + Parse(r.value) == Parse(p)
  {
    r := IterAfter(p, base);
  }

  /** A component other than the root: its text is a stretch without slashes that reads as that component. */
  ghost predicate IsName(c: Component) {
    c != RootDir && Text(c) != [] && Plain(Text(c)) && Classify(Text(c)) == c
  }

  lemma {:induction false} NamesAreNames(p: string, i: nat)
    requires i < |Names(p)|
    ensures IsName(Names(p)[i])
    decreases |p|
  {
    if p[0] == SLASH {
      NamesAreNames(p[1..], i);
    } else if i > 0 {
      NamesStep(p);
      NamesAreNames(p[Run(p)..], i - 1);
    } else {
      NamesStep(p);
      assert Plain(p[..Run(p)]);
    }
  }

  /** The root comes first or not at all. */
  lemma RootOnlyFirst(p: string, i: nat)
    requires i < |Parse(p)|
    ensures Parse(p)[i] == RootDir <==> i == 0 && p[0] == SLASH
    ensures Parse(p)[i] != RootDir ==> IsName(Parse(p)[i])
  {
    var d := |Parse(p)| - |Names(p)|;
    if i >= d { NamesAreNames(p, i - d); }
  }

  /** A directory and the name of an entry in it. */
  function Entry(dir: string, name: string): string {
    if dir == [] then name else dir + [SLASH] + name
  }

  lemma EntryParses(dir: string, c: Component)
    requires IsName(c)
    ensures Parse(Entry(dir, Text(c))) == Parse(dir) + [c]
  {
    NamesPlain(Text(c));
    if dir != [] { NamesJoin(dir, Text(c)); }
  }

  /** `split_path`: the directory and the last component, which name the same entry as the path; none for the root and
      for the empty path. */
  method SplitPath(p: string) returns (r: Option<(string, string)>)
    ensures r.None? <==> Parse(p) == [] || Parse(p) == [RootDir]
    ensures r.Some? ==> Parse(Entry(r.value.0, r.value.1)) == Parse(p)
    ensures r.Some? ==> exists c: Component {:trigger Text(c)} ::
        c != RootDir && Text(c) == r.value.1 && Parse(r.value.0) + [c] == Parse(p)
  {
    hide Parse, Rest, Tidy, Entry;
    var it := new Components(p);
    ghost var list := it.List();
    if list != [] { RootOnlyFirst(p, |list| - 1); }
    var last := it.NextBack();
    if last.None? || last.value == RootDir { return None; }
    assert list == it.List() + [last.value];
    var dir := it.AsPath();
    EntryParses(dir, last.value);
    r := Some((dir, Text(last.value)));
  }
}
