/** Which URL pattern a template is served under (build.go). */
module TemplateRoutes {
  import opened Paths
  import opened Text
  import opened Wrappers

  /** The last element starts with a dot. */
  predicate Hidden(path: string) {
    var file := path[LastSlash(path) + 1..];
    file != "" && file[0] == '.'
  }

  /** The route of a file path without its extension: "index" stands for its directory. */
  function RouteOf(stripped: string): string
    requires stripped != "" ==> stripped[0] == '/'
  {
    if stripped == "" then "."
    else if Base(stripped) == "index" then Clean(Dir(stripped) + "/")
    else if Base(stripped) == "index{$}" then Clean(Dir(stripped) + "/{$}")
    else Clean(stripped)
  }

  /** The route of a template file from its rooted path; hidden files have none. */
  function FileRoute(path: string, ext: string): Option<string>
    requires path != "" && path[0] == '/'
  {
    if Hidden(path) then None else Some(RouteOf(TrimSuffix(path, ext)))
  }

  const METHODS := ["GET", "POST", "PUT", "PATCH", "DELETE", "SSE"]

  /** Event streams are served to GET requests. */
  function Verb(m: string): string {
    if m == "SSE" then "GET" else m
  }

  predicate Names(name: string, verb: string) {
    verb + " " <= name && Free(name[|verb| + 1..], '\n')
  }

  /** A template name that is a route: a method, a space and a path on one line. */
  function NamedRoute(name: string, i: nat := 0): (r: Option<string>)
    requires i <= |METHODS|
    ensures r.None? <==> forall j :: i <= j < |METHODS| ==> !Names(name, METHODS[j])
    ensures r.Some? ==>
              exists j :: i <= j < |METHODS| && Names(name, METHODS[j]) && r.value == Verb(METHODS[j]) + name[|METHODS[j]|..]
    decreases |METHODS| - i
  {
    if i == |METHODS| then None
    else if Names(name, METHODS[i]) then
      Some(Verb(METHODS[i]) + name[|METHODS[i]|..])
    else NamedRoute(name, i + 1)
  }

  /** An event stream template is served to GET requests for its path. */
  lemma EventStreamRoute(p: string)
    requires Free(p, '\n')
    ensures NamedRoute("SSE " + p) == Some("GET " + p)
  {
    var name := "SSE " + p;
    assert name[0] == 'S' && METHODS[5] == "SSE" && |METHODS| == 6;
    assert forall j :: 0 <= j < 5 ==> !Names(name, METHODS[j]) by {
      assert forall j :: 0 <= j < 5 ==> METHODS[j][0] != 'S';
      assert forall j :: 0 <= j < 5 ==> (METHODS[j] + " ")[0] == METHODS[j][0];
    }
    assert METHODS[5] + " " == "SSE " && name[4..] == p;
    assert Names(name, METHODS[5]);
    assert name[3..] == " " + p;
    assert "GET" + (" " + p) == "GET " + p;
  }

  /** A name has at most one method: it is followed by the first space of the name. */
  lemma OneMethod(name: string, a: string, b: string)
    requires Names(name, a) && Names(name, b) && Free(a, ' ') && Free(b, ' ')
    ensures a == b
  {
    var x, y := a + " ", b + " ";
    assert name[|a|] == x[|a|] == ' ' && name[|b|] == y[|b|] == ' ';
    assert forall i :: 0 <= i < |a| ==> name[i] == x[i] == a[i];
    assert forall i :: 0 <= i < |b| ==> name[i] == y[i] == b[i];
    assert |a| == |b| && a == b;
  }

  lemma MethodsPlain(j: nat)
    requires j < |METHODS|
    ensures Free(METHODS[j], ' ')
  {
    assert METHODS[j] in ["GET", "POST", "PUT", "PATCH", "DELETE", "SSE"];
  }

  lemma MethodIndex(m: string) returns (i: nat)
    requires m in ["GET", "POST", "PUT", "PATCH", "DELETE"]
    ensures i < |METHODS| && METHODS[i] == m && Verb(m) == m
  {
    i := if m == "GET" then 0 else if m == "POST" then 1 else if m == "PUT" then 2 else if m == "PATCH" then 3 else 4;
    assert m == "DELETE" ==> m[0] == 'D';
  }

  lemma RouteBy(i: nat, p: string, name: string)
    requires i < |METHODS| && Free(p, '\n') && name == METHODS[i] + " " + p
    ensures NamedRoute(name) == Some(Verb(METHODS[i]) + " " + p)
  {
    hide NamedRoute, METHODS, Verb;
    var m := METHODS[i];
    assert m + " " <= name && name[|m| + 1..] == p && Names(name, METHODS[i]);
    var j :| 0 <= j < |METHODS| && Names(name, METHODS[j]) && NamedRoute(name).value == Verb(METHODS[j]) + name[|METHODS[j]|..];
    MethodsPlain(i);
    MethodsPlain(j);
    OneMethod(name, METHODS[j], m);
    assert name[|m|..] == " " + p && Verb(m) + (" " + p) == Verb(m) + " " + p;
  }

  /** A template named by one of the other methods and a path is served to that method. */
  lemma MethodRoute(m: string, p: string)
    requires m in ["GET", "POST", "PUT", "PATCH", "DELETE"] && Free(p, '\n')
    ensures NamedRoute(m + " " + p) == Some(m + " " + p)
  {
    var i := MethodIndex(m);
    hide NamedRoute, METHODS, Verb;
    RouteBy(i, p, m + " " + p);
  }

  /** No other name is a route. */
  lemma NotARoute(name: string)
    requires forall m :: m in ["GET", "POST", "PUT", "PATCH", "DELETE", "SSE"] ==> !(m + " " <= name) || !Free(name[|m| + 1..], '\n')
    ensures NamedRoute(name) == None
  {
    assert METHODS == ["GET", "POST", "PUT", "PATCH", "DELETE", "SSE"];
    assert forall j :: 0 <= j < |METHODS| ==> METHODS[j] in ["GET", "POST", "PUT", "PATCH", "DELETE", "SSE"];
  }

  /** The pattern a parsed template registers, if any. */
  function PatternOf(name: string, path: string, ext: string): Option<string>
    requires path != "" && path[0] == '/'
  {
    if name == path then
      match FileRoute(path, ext)
      case None => None
      case Some(route) => Some("GET " + route)
    else NamedRoute(name)
  }

  // ----- Which template files share a route -----

  /** A template extension as the default ".html" is. */
  predicate PlainExtension(ext: string) {
    ext != "" && ext[0] == '.' && Free(ext, '/')
  }

  /** A template file: the names of its directories, and its own name without the extension. */
  datatype File = File(dir: seq<string>, name: string)

  predicate Visible(f: File) {
    ValidNames(f.dir) && f.name != "" && Free(f.name, '/') && f.name[0] != '.'
  }

  function FilePath(f: File, ext: string): string {
    PathOf(f.dir + [f.name + ext])
  }

  /** The route as a list of names. */
  function RouteNames(f: File): seq<string> {
    if f.name == "index" then f.dir
    else if f.name == "index{$}" then f.dir + ["{$}"]
    else f.dir + [f.name]
  }

  lemma TrimExtension(f: File, ext: string)
    requires Visible(f) && PlainExtension(ext)
    ensures TrimSuffix(FilePath(f, ext), ext) == PathOf(f.dir + [f.name])
    ensures ValidName(f.name) && ValidName(f.name + ext)
  {
    PathOfSnoc(f.dir, f.name + ext);
    PathOfSnoc(f.dir, f.name);
    assert (f.name + ext)[0] == f.name[0];
    var p := Slashed(f.dir) + (f.name + ext);
    assert p == Slashed(f.dir) + f.name + ext;
    assert p[|p| - |ext|..] == ext && p[..|p| - |ext|] == Slashed(f.dir) + f.name;
  }

  lemma NotHidden(f: File, ext: string)
    requires Visible(f) && PlainExtension(ext)
    ensures !Hidden(FilePath(f, ext))
  {
    TrimExtension(f, ext);
    LastSlashChild(f.dir, f.name + ext);
    assert (f.name + ext)[0] == f.name[0];
  }

  lemma RouteOfNames(f: File)
    requires Visible(f) && ValidName(f.name)
    ensures RouteOf(PathOf(f.dir + [f.name])) == PathOf(RouteNames(f)) && ValidNames(RouteNames(f))
  {
    LastSlashChild(f.dir, f.name);
    DirChild(f.dir, f.name);
    if f.name == "index" {
      CleanSlashed(f.dir);
    } else if f.name == "index{$}" {
      assert Free("{$}", '/');
      CleanChild(f.dir, "{$}");
      assert PathOf(f.dir) + "/" + "{$}" == PathOf(f.dir) + "/{$}";
    } else {
      CleanPathOf(f.dir + [f.name]);
    }
  }

  /** A visible file is served at the path of its route names. */
  lemma FileRouteNames(f: File, ext: string)
    requires Visible(f) && PlainExtension(ext)
    ensures FileRoute(FilePath(f, ext), ext) == Some(PathOf(RouteNames(f)))
    ensures ValidNames(RouteNames(f))
  {
    TrimExtension(f, ext);
    NotHidden(f, ext);
    RouteOfNames(f);
  }

  /** A file is not routed exactly when its name starts with a dot. */
  lemma HiddenNotRouted(dir: seq<string>, name: string, ext: string)
    requires ValidNames(dir) && ValidName(name)
    ensures FileRoute(PathOf(dir + [name]), ext).None? <==> name[0] == '.'
  {
    PathOfSnoc(dir, name);
    var p := PathOf(dir + [name]);
    var n := |Slashed(dir)| - 1;
    assert p[n] == '/' && p[n + 1..] == name;
    assert forall i :: n < i < |p| ==> p[i] == name[i - n - 1];
    assert LastSlash(p) == n;
  }

  /** One of the three ways two files come to share a route. */
  ghost predicate Collide(a: File, b: File) {
    || (a.name == "index" && b.name != "index" && b.name != "index{$}" && a.dir == b.dir + [b.name])
    || (a.name == "index{$}" && b.name == "{$}" && a.dir == b.dir)
    || (a.name == "index" && b.name == "index{$}" && a.dir == b.dir + ["{$}"])
  }

  /** Two different visible files get the same route exactly when they are D.html and
      D/index.html, or D/index{$}.html and D/{$}.html, or D/{$}/index.html and D/index{$}.html. */
  lemma RouteCollisions(a: File, b: File, ext: string)
    requires Visible(a) && Visible(b) && a != b && PlainExtension(ext)
    ensures FileRoute(FilePath(a, ext), ext) == FileRoute(FilePath(b, ext), ext) <==> Collide(a, b) || Collide(b, a)
  {
    FileRouteNames(a, ext);
    FileRouteNames(b, ext);
    if PathOf(RouteNames(a)) == PathOf(RouteNames(b)) {
      PathOfInjective(RouteNames(a), RouteNames(b));
    }
    RouteNamesCollide(a, b);
  }

  lemma RouteNamesCollide(a: File, b: File)
    requires a != b
    ensures RouteNames(a) == RouteNames(b) <==> Collide(a, b) || Collide(b, a)
  {
    SnocEqual(a.dir, a.name, b.dir, b.name);
    SnocEqual(a.dir, "{$}", b.dir, b.name);
    SnocEqual(a.dir, a.name, b.dir, "{$}");
    SnocEqual(a.dir, "{$}", b.dir, "{$}");
  }

  lemma SnocEqual(a: seq<string>, x: string, b: seq<string>, y: string)
    ensures a + [x] == b + [y] <==> a == b && x == y
  {
    if a + [x] == b + [y] {
      assert (a + [x])[..|a|] == a && (b + [y])[..|b|] == b;
      assert (a + [x])[|a|] == x && (b + [y])[|b|] == y;
    }
  }
}
