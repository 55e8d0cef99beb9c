/** fs.WalkDir over a directory tree: entries of a directory in lexical order, depth first.
    This is what makes a file always come before its siblings with a longer name. */
module DirectoryWalk {
  import opened Paths
  import opened StaticIndex
  import opened InstanceBuild
  import opened Text

  datatype Node = FileNode(name: string) | DirNode(name: string, kids: seq<Node>)

  /** Lexical order of file names. */
  predicate NameLess(a: string, b: string) {
    b != "" && (a == "" || a[0] < b[0] || (a[0] == b[0] && NameLess(a[1..], b[1..])))
  }

  predicate WellFormed(nodes: seq<Node>)
    decreases nodes
  {
    && (forall i :: 0 <= i < |nodes| ==> ValidName(nodes[i].name))
    && (forall i, j :: 0 <= i < j < |nodes| ==> NameLess(nodes[i].name, nodes[j].name))
    && (forall i :: 0 <= i < |nodes| && nodes[i].DirNode? ==> WellFormed(nodes[i].kids))
  }

  /** The files visited below `dir`, each as the list of names on its path. */
  function Visit(dir: seq<string>, nodes: seq<Node>): seq<seq<string>>
    decreases nodes
  {
    if nodes == [] then []
    else
      (match nodes[0]
       case FileNode(name) => [dir + [name]]
       case DirNode(name, kids) => Visit(dir + [name], kids)) + Visit(dir, nodes[1..])
  }

  /** Name by name, the first difference decides. */
  predicate PathLess(a: seq<string>, b: seq<string>) {
    b != [] && (a == [] || (if a[0] == b[0] then PathLess(a[1..], b[1..]) else NameLess(a[0], b[0])))
  }

  predicate Ordered(list: seq<seq<string>>) {
    forall i, j :: 0 <= i < j < |list| ==> PathLess(list[i], list[j])
  }

  lemma {:induction false} NotLessExtended(n: string, ext: string)
    ensures !NameLess(n + ext, n)
  {
    if n != "" {
      assert (n + ext)[1..] == n[1..] + ext;
      NotLessExtended(n[1..], ext);
    }
  }

  lemma NotLessItself(n: string)
    ensures !NameLess(n, n)
  {
    NotLessExtended(n, "");
    assert n + "" == n;
  }

  lemma {:induction false} PathNotLessItself(a: seq<string>)
    ensures !PathLess(a, a)
  {
    if a != [] {
      PathNotLessItself(a[1..]);
    }
  }

  lemma {:induction false} PathLessBelow(dir: seq<string>, a: seq<string>, b: seq<string>)
    ensures PathLess(dir + a, dir + b) == PathLess(a, b)
  {
    if dir == [] {
      assert dir + a == a && dir + b == b;
    } else {
      PathLessBelow(dir[1..], a, b);
      assert (dir + a)[1..] == dir[1..] + a && (dir + b)[1..] == dir[1..] + b;
    }
  }

  /** x lies below dir, through one of the given entries. */
  predicate Through(x: seq<string>, dir: seq<string>, nodes: seq<Node>) {
    dir <= x && |x| > |dir| && exists i :: 0 <= i < |nodes| && nodes[i].name == x[|dir|]
  }

  lemma {:induction false} VisitThrough(dir: seq<string>, nodes: seq<Node>, x: seq<string>)
    requires x in Visit(dir, nodes)
    ensures Through(x, dir, nodes)
    decreases nodes
  {
    if x in Visit(dir, nodes[1..]) {
      VisitThrough(dir, nodes[1..], x);
      var i :| 0 <= i < |nodes[1..]| && nodes[1..][i].name == x[|dir|];
      assert nodes[i + 1].name == x[|dir|];
    } else if nodes[0].DirNode? {
      VisitThrough(dir + [nodes[0].name], nodes[0].kids, x);
      assert x[|dir|] == (dir + [nodes[0].name])[|dir|];
    } else {
      assert x[|dir|] == nodes[0].name;
    }
  }

  lemma VisitedValid(dir: seq<string>, nodes: seq<Node>)
    requires ValidNames(dir) && WellFormed(nodes)
    ensures forall i :: 0 <= i < |Visit(dir, nodes)| ==> ValidNames(Visit(dir, nodes)[i])
    decreases nodes
  {
    if nodes != [] {
      WellFormedRest(nodes);
      VisitedValid(dir, nodes[1..]);
      if nodes[0].DirNode? {
        VisitedValid(dir + [nodes[0].name], nodes[0].kids);
      }
    }
  }

  lemma WellFormedRest(nodes: seq<Node>)
    requires nodes != [] && WellFormed(nodes)
    ensures WellFormed(nodes[1..])
  {
    assert forall i :: 0 <= i < |nodes[1..]| ==> nodes[1..][i] == nodes[i + 1];
  }

  lemma OrderedConcat(a: seq<seq<string>>, b: seq<seq<string>>)
    requires Ordered(a) && Ordered(b) && forall x, y :: x in a && y in b ==> PathLess(x, y)
    ensures Ordered(a + b)
  {
    var c := a + b;
    forall i, j | 0 <= i < j < |c|
      ensures PathLess(c[i], c[j])
    {
      if i < |a| <= j {
        assert c[i] in a && c[j] in b;
      }
    }
  }

  lemma SiblingsLess(dir: seq<string>, x: seq<string>, y: seq<string>)
    requires dir <= x && dir <= y && |x| > |dir| && |y| > |dir| && NameLess(x[|dir|], y[|dir|])
    ensures PathLess(x, y)
  {
    NotLessItself(x[|dir|]);
    var n := |dir|;
    assert x == dir + x[n..] && y == dir + y[n..];
    PathLessBelow(dir, x[n..], y[n..]);
  }

  /** The walk visits files in strictly increasing order. */
  lemma {:induction false} VisitOrdered(dir: seq<string>, nodes: seq<Node>)
    requires WellFormed(nodes)
    ensures Ordered(Visit(dir, nodes))
    decreases nodes
  {
    if nodes != [] {
      var rest := nodes[1..];
      WellFormedRest(nodes);
      VisitOrdered(dir, rest);
      var first := if nodes[0].DirNode? then Visit(dir + [nodes[0].name], nodes[0].kids) else [dir + [nodes[0].name]];
      if nodes[0].DirNode? {
        VisitOrdered(dir + [nodes[0].name], nodes[0].kids);
      }
      forall x, y | x in first && y in Visit(dir, rest)
        ensures PathLess(x, y)
      {
        VisitThrough(dir, rest, y);
        var i :| 0 <= i < |rest| && rest[i].name == y[|dir|];
        assert rest[i] == nodes[i + 1];
        if nodes[0].DirNode? {
          VisitThrough(dir + [nodes[0].name], nodes[0].kids, x);
        }
        assert dir + [nodes[0].name] <= x && x[|dir|] == (dir + [nodes[0].name])[|dir|];
        SiblingsLess(dir, x, y);
      }
      OrderedConcat(first, Visit(dir, rest));
    }
  }

  function JoinAll(list: seq<seq<string>>): (r: seq<string>)
    ensures |r| == |list| && forall i :: 0 <= i < |list| ==> r[i] == Join(list[i], '/')
  {
    if list == [] then [] else [Join(list[0], '/')] + JoinAll(list[1..])
  }

  /** The paths fs.WalkDir passes for the files of a tree. */
  function WalkPaths(nodes: seq<Node>): seq<string> {
    JoinAll(Visit([], nodes))
  }

  /** The tree holds a file under these names. */
  ghost predicate HasFile(nodes: seq<Node>, names: seq<string>)
    decreases names
  {
    && names != []
    && exists n :: n in nodes && n.name == names[0]
                   && if |names| == 1 then n.FileNode? else n.DirNode? && HasFile(n.kids, names[1..])
  }

  lemma {:induction false} VisitFinds(dir: seq<string>, nodes: seq<Node>, names: seq<string>)
    requires HasFile(nodes, names)
    ensures dir + names in Visit(dir, nodes)
    decreases nodes
  {
    var n :| n in nodes && n.name == names[0]
             && if |names| == 1 then n.FileNode? else n.DirNode? && HasFile(n.kids, names[1..]);
    if n == nodes[0] {
      if |names| == 1 {
        assert dir + names == dir + [n.name];
      } else {
        VisitFinds(dir + [n.name], n.kids, names[1..]);
        assert dir + names == dir + [n.name] + names[1..];
      }
    } else {
      assert n in nodes[1..];
      VisitFinds(dir, nodes[1..], names);
    }
  }

  lemma {:induction false} VisitHasFile(dir: seq<string>, nodes: seq<Node>, x: seq<string>)
    requires x in Visit(dir, nodes)
    ensures dir <= x && HasFile(nodes, x[|dir|..])
    decreases nodes
  {
    var n, rest := nodes[0], nodes[1..];
    if x in Visit(dir, rest) {
      VisitHasFile(dir, rest, x);
      var names := x[|dir|..];
      var m :| m in rest && m.name == names[0]
               && if |names| == 1 then m.FileNode? else m.DirNode? && HasFile(m.kids, names[1..]);
      assert m in nodes;
    } else if n.FileNode? {
      assert x == dir + [n.name] && x[|dir|..] == [n.name] && n in nodes;
    } else {
      VisitHasFile(dir + [n.name], n.kids, x);
      assert x[|dir|..][1..] == x[|dir| + 1..] && x[|dir|] == n.name && n in nodes;
      assert dir <= dir + [n.name] <= x;
    }
  }

  /** The walk passes exactly the files of the tree: no file is missed and no directory passed. */
  lemma WalkFiles(nodes: seq<Node>, p: string)
    ensures p in WalkPaths(nodes) <==> exists names :: HasFile(nodes, names) && p == Join(names, '/')
  {
    if p in WalkPaths(nodes) {
      var i :| 0 <= i < |WalkPaths(nodes)| && WalkPaths(nodes)[i] == p;
      var x := Visit([], nodes)[i];
      var root: seq<string> := [];
      VisitHasFile(root, nodes, x);
      assert x[|root|..] == x && HasFile(nodes, x) && p == Join(x, '/');
    }
    forall names | HasFile(nodes, names) && p == Join(names, '/')
      ensures p in WalkPaths(nodes)
    {
      WalkFinds(nodes, names);
    }
  }

  /** The walk passes every file of the tree. */
  lemma WalkFinds(nodes: seq<Node>, names: seq<string>)
    requires HasFile(nodes, names)
    ensures Join(names, '/') in WalkPaths(nodes)
  {
    VisitFinds([], nodes, names);
    assert [] + names == names;
    var i :| 0 <= i < |Visit([], nodes)| && Visit([], nodes)[i] == names;
    assert WalkPaths(nodes)[i] == Join(names, '/');
  }

  lemma SplitNames(names: seq<string>)
    requires ValidNames(names) && names != []
    ensures Split(Join(names, '/'), '/') == names
  {
    ValidFree(names);
    SplitJoin(names, '/');
  }

  /** Appending an extension to a path appends it to the last name. */
  lemma ExtendLast(d: seq<string>, n: string, ext: string)
    ensures PathOf(d + [n]) + ext == PathOf(d + [n + ext])
  {
    PathOfSnoc(d, n);
    PathOfSnoc(d, n + ext);
    assert Slashed(d) + n + ext == Slashed(d) + (n + ext);
  }

  lemma ExtendedValid(n: string, p: string)
    requires ValidName(n) && Ext(p) != ""
    ensures ValidName(n + Ext(p))
  {
    assert (n + Ext(p))[0] == n[0];
    assert n + Ext(p) == ".." ==> n == ".";
  }

  /** A sibling with an extension is the stem with a longer last name, and does not come before it. */
  lemma SiblingNames(x: seq<string>, y: seq<string>)
    requires ValidNames(x) && ValidNames(y) && y != []
    requires Ext(Join(x, '/')) != "" && StemKey(Join(x, '/')) == PathOf(y)
    ensures !PathLess(x, y)
  {
    hide Ext, StemKey, Join, PathLess, NameLess;
    var ext, d, n := Ext(Join(x, '/')), y[..|y| - 1], y[|y| - 1];
    StemExt(Join(x, '/'));
    assert y == d + [n] && ValidName(n);
    ExtendLast(d, n, ext);
    ExtendedValid(n, Join(x, '/'));
    PathOfInjective(x, d + [n + ext]);
    PathLessBelow(d, [n + ext], [n]);
    NotLessExtended(n, ext);
    LongerNotEqual(n, ext);
  }

  lemma LongerNotEqual(n: string, ext: string)
    requires ext != "" && !NameLess(n + ext, n)
    ensures !PathLess([n + ext], [n])
  {
    assert |n + ext| > |n|;
  }

  /** Every tree is walked in an order the builder relies on. */
  lemma TreeWalkOrder(nodes: seq<Node>)
    requires WellFormed(nodes)
    ensures WalkOrder(WalkPaths(nodes))
  {
    var list, paths := Visit([], nodes), WalkPaths(nodes);
    VisitedValid([], nodes);
    VisitOrdered([], nodes);
    forall i | 0 <= i < |list|
      ensures list[i] != [] && ValidNames(list[i]) && ValidPath(paths[i])
    {
      VisitThrough([], nodes, list[i]);
      SplitNames(list[i]);
    }
    forall i, j | 0 <= i < j < |list|
      ensures paths[i] != paths[j]
    {
      SplitNames(list[i]);
      SplitNames(list[j]);
      PathNotLessItself(list[i]);
    }
    forall i, j | 0 <= i < |list| && 0 <= j < |list| && Ext(paths[i]) != "" && StemKey(paths[i]) == "/" + paths[j]
      ensures j < i
    {
      SiblingNames(list[i], list[j]);
      StemExt(paths[i]);
      assert |StemKey(paths[i])| + |Ext(paths[i])| == |"/" + paths[i]|;
    }
  }
}
