/** The parts of Go's `path` package used for URL paths, on paths that start with a slash, and
    what they do on the paths a directory walk produces. */
module Paths {
  import opened Text

  /** A name fs.WalkDir can visit: not empty, no slash, not "." or "..". */
  predicate ValidName(s: string) {
    s != "" && Free(s, '/') && s != "." && s != ".."
  }

  predicate ValidNames(names: seq<string>) {
    forall i :: 0 <= i < |names| ==> ValidName(names[i])
  }

  /** The rooted path with the given elements. */
  function PathOf(names: seq<string>): string {
    "/" + Join(names, '/')
  }

  /** Lexical processing of path elements, left to right; ".." at the root stays there. */
  function Resolve(elements: seq<string>): seq<string> {
    if elements == [] then []
    else
      var before, e := Resolve(elements[..|elements| - 1]), elements[|elements| - 1];
      if e == "" || e == "." then before
      else if e == ".." then (if before == [] then [] else before[..|before| - 1])
      else before + [e]
  }

  /** path.Clean of a rooted path */
  function Clean(p: string): string
    requires p != "" && p[0] == '/'
  {
    PathOf(Resolve(Split(p[1..], '/')))
  }

  function LastSlash(p: string): (i: int)
    ensures -1 <= i < |p|
    ensures i >= 0 ==> p[i] == '/'
    ensures forall j :: i < j < |p| ==> p[j] != '/'
  {
    if p == "" || p[|p| - 1] == '/' then |p| - 1 else LastSlash(p[..|p| - 1])
  }

  function TrimSlashes(p: string): string {
    if p != "" && p[|p| - 1] == '/' then TrimSlashes(p[..|p| - 1]) else p
  }

  /** path.Base */
  function Base(p: string): string {
    if p == "" then "."
    else
      var s := TrimSlashes(p);
      if s == "" then "/" else s[LastSlash(s) + 1..]
  }

  /** path.Dir of a rooted path */
  function Dir(p: string): string
    requires p != "" && p[0] == '/'
  {
    Clean(p[..LastSlash(p) + 1])
  }

  lemma {:induction false} ResolveValid(names: seq<string>)
    requires ValidNames(names)
    ensures Resolve(names) == names
  {
    if names != [] {
      ResolveValid(names[..|names| - 1]);
    }
  }

  lemma ResolveEmptyLast(names: seq<string>)
    requires ValidNames(names)
    ensures Resolve(names + [""]) == names
  {
    assert (names + [""])[..|names|] == names;
    ResolveValid(names);
  }

  lemma {:induction false} JoinSnoc(names: seq<string>, name: string)
    requires names != []
    ensures Join(names + [name], '/') == Join(names, '/') + "/" + name
  {
    var all := names + [name];
    if |names| == 1 {
      assert all[1..] == [name];
    } else {
      JoinSnoc(names[1..], name);
      assert all[1..] == names[1..] + [name];
      assert names[0] + "/" + (Join(names[1..], '/') + "/" + name) == names[0] + "/" + Join(names[1..], '/') + "/" + name;
    }
  }

  /** PathOf(names) with a slash after it; the root already ends in one. */
  function Slashed(names: seq<string>): string {
    if names == [] then "/" else PathOf(names) + "/"
  }

  lemma PathOfSnoc(names: seq<string>, name: string)
    ensures PathOf(names + [name]) == Slashed(names) + name
  {
    if names == [] {
      assert names + [name] == [name];
    } else {
      JoinSnoc(names, name);
      assert "/" + (Join(names, '/') + "/" + name) == "/" + Join(names, '/') + "/" + name;
    }
  }

  lemma ValidFree(names: seq<string>)
    requires ValidNames(names)
    ensures AllFree(names, '/')
  {
    assert forall i :: 0 <= i < |names| ==> ValidName(names[i]);
  }

  lemma SplitPathOf(names: seq<string>)
    requires ValidNames(names)
    ensures PathOf(names)[1..] == Join(names, '/')
    ensures Resolve(Split(Join(names, '/'), '/')) == names
  {
    ValidFree(names);
    if names == [] {
      assert Split("", '/') == [""];
      ResolveEmptyLast([]);
      assert [] + [""] == [""];
    } else {
      SplitJoin(names, '/');
      ResolveValid(names);
    }
  }

  /** Cleaning changes nothing on the path of a visited file. */
  lemma CleanPathOf(names: seq<string>)
    requires ValidNames(names)
    ensures Clean(PathOf(names)) == PathOf(names)
  {
    SplitPathOf(names);
  }

  lemma CleanSlashed(names: seq<string>)
    requires ValidNames(names)
    ensures Clean(Slashed(names)) == PathOf(names)
    ensures Clean(PathOf(names) + "/") == PathOf(names)
  {
    SplitPathOf(names);
    ValidFree(names);
    SplitConcat(Join(names, '/'), "", '/');
    assert (PathOf(names) + "/")[1..] == Join(names, '/') + "/" + "";
    assert Split("", '/') == [""];
    if names == [] {
      var blanks := ["", ""];
      assert blanks[..1] == [""] && [""][..0] == [];
      assert Split("/", '/') == blanks by { assert [""] + [""] == blanks; }
      assert Resolve(blanks[..1]) == Resolve([""][..0]) == [];
    } else {
      SplitJoin(names, '/');
      ResolveEmptyLast(names);
    }
  }

  lemma CleanChild(names: seq<string>, name: string)
    requires ValidNames(names) && ValidName(name)
    ensures Clean(PathOf(names) + "/" + name) == PathOf(names + [name])
  {
    SplitPathOf(names);
    ValidFree(names);
    SplitConcat(Join(names, '/'), name, '/');
    SplitFree(name, '/');
    assert (PathOf(names) + "/" + name)[1..] == Join(names, '/') + "/" + name;
    if names == [] {
      var s := ["", name];
      assert Split(Join(names, '/'), '/') + [name] == s;
      assert s[..1] == [""] && [""][..0] == [];
      assert Resolve([""]) == [] && Resolve(s) == [] + [name];
    } else {
      SplitJoin(names, '/');
      ResolveValid(names + [name]);
    }
  }

  lemma LastSlashChild(names: seq<string>, name: string)
    requires ValidName(name)
    ensures var p := PathOf(names + [name]);
            && p[|p| - 1] != '/'
            && p[..LastSlash(p) + 1] == Slashed(names)
            && p[LastSlash(p) + 1..] == name
            && Base(p) == name
  {
    PathOfSnoc(names, name);
    var p, i := Slashed(names) + name, |Slashed(names)| - 1;
    assert p[i] == '/';
    assert forall j :: i < j < |p| ==> p[j] == name[j - i - 1];
    assert LastSlash(p) == i;
  }

  lemma DirChild(names: seq<string>, name: string)
    requires ValidNames(names) && ValidName(name)
    ensures Dir(PathOf(names + [name])) == PathOf(names)
  {
    LastSlashChild(names, name);
    CleanSlashed(names);
  }

  /** Different lists of names have different paths. */
  lemma PathOfInjective(a: seq<string>, b: seq<string>)
    requires ValidNames(a) && ValidNames(b) && PathOf(a) == PathOf(b)
    ensures a == b
  {
    SplitPathOf(a);
    SplitPathOf(b);
  }

  // ----- What cleaning takes out -----

  /** Elements that cancel out leave no trace, whatever follows them. */
  lemma {:induction false} ResolveWithout(a: seq<string>, x: seq<string>, b: seq<string>)
    requires Resolve(a + x) == Resolve(a)
    ensures Resolve(a + x + b) == Resolve(a + b)
    decreases b
  {
    if b == [] {
      assert a + x + b == a + x && a + b == a;
    } else {
      var n := |b| - 1;
      ResolveWithout(a, x, b[..n]);
      assert (a + x + b)[..|a + x + b| - 1] == a + x + b[..n] && (a + b)[..|a + b| - 1] == a + b[..n];
      assert (a + x + b)[|a + x + b| - 1] == b[n] == (a + b)[|a + b| - 1];
    }
  }

  /** An empty element, a dot, and a name with two dots after it cancel out. */
  lemma Cancels(a: seq<string>, n: string)
    requires ValidName(n)
    ensures Resolve(a + [""]) == Resolve(a) && Resolve(a + ["."]) == Resolve(a) && Resolve(a + [n, ".."]) == Resolve(a)
  {
    assert (a + [""])[..|a|] == a && (a + ["."])[..|a|] == a;
    var two := a + [n, ".."];
    assert two[..|two| - 1] == a + [n] && (a + [n])[..|a|] == a;
    assert Resolve(a + [n]) == Resolve(a) + [n];
    assert (Resolve(a) + [n])[..|Resolve(a)|] == Resolve(a);
  }

  lemma CleanOf(x: seq<string>)
    requires x != [] && AllFree(x, '/')
    ensures Clean(PathOf(x)) == PathOf(Resolve(x))
  {
    SplitJoin(x, '/');
    assert PathOf(x)[1..] == Join(x, '/');
  }

  lemma CleanWithout(a: seq<string>, x: seq<string>, b: seq<string>)
    requires ValidNames(a) && ValidNames(b) && x != [] && AllFree(x, '/') && Resolve(a + x) == Resolve(a)
    ensures Clean(PathOf(a + x + b)) == PathOf(a + b)
  {
    ValidFree(a);
    ValidFree(b);
    ResolveValid(a + b);
    hide Resolve, PathOf, Clean, ValidNames;
    ResolveWithout(a, x, b);
    CleanOf(a + x + b);
  }

  lemma ElementsFree(n: string)
    requires ValidName(n)
    ensures AllFree([""], '/') && AllFree(["."], '/') && AllFree([n, ".."], '/') && AllFree([".."], '/')
  {
  }

  /** Between any two lists of names, cleaning takes out double slashes, dots, and a name
      together with the two dots that follow it. */
  lemma CleanTakesOut(a: seq<string>, n: string, b: seq<string>)
    requires ValidNames(a) && ValidName(n) && ValidNames(b)
    ensures Clean(PathOf(a + [""] + b)) == PathOf(a + b)
    ensures Clean(PathOf(a + ["."] + b)) == PathOf(a + b)
    ensures Clean(PathOf(a + [n, ".."] + b)) == PathOf(a + b)
  {
    Cancels(a, n);
    ElementsFree(n);
    hide Resolve, PathOf, Clean, ValidNames, ValidName, AllFree;
    CleanWithout(a, [""], b);
    CleanWithout(a, ["."], b);
    CleanWithout(a, [n, ".."], b);
  }

  /** Two dots at the root are taken out too. */
  lemma CleanAtRoot(b: seq<string>)
    requires ValidNames(b)
    ensures Clean(PathOf([".."] + b)) == PathOf(b)
  {
    var none: seq<string>, up := [], [".."];
    assert none + up == up && up[..0] == none && Resolve(up) == none;
    assert ValidNames(none) && AllFree(up, '/');
    CleanWithout(none, up, b);
    assert none + up + b == up + b && none + b == b;
  }
}
