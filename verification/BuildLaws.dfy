/** Which files keep a directory from being built, one by one, and that nothing else does. */
module BuildLaws {
  import opened BuildRules
  import opened Paths
  import opened StaticIndex
  import opened TemplateRoutes
  import opened Text
  import opened Wrappers

  // ----- Names that cannot stand side by side -----

  /** A dot and a name without dots. */
  predicate Extension(x: string) {
    x != "" && x[0] == '.' && Free(x[1..], '.') && Free(x[1..], '/')
  }

  lemma ExtAppended(p: string, x: string)
    requires Extension(x)
    ensures Ext(p + x) == x && Stem(p + x) == p
  {
    var q := p + x;
    ExtOf(p, x);
    StemExt(q);
    assert q[|q| - |x|..] == x && q[..|q| - |x|] == p;
  }

  lemma ExtSnoc(q: string, c: char)
    requires c != '.' && c != '/'
    ensures Ext(q + [c]) == if Ext(q) == "" then "" else Ext(q) + [c]
  {
    assert (q + [c])[..|q|] == q;
  }

  lemma ExtDot(q: string)
    ensures Ext(q + ".") == "."
  {
    assert (q + ".")[|q|] == '.';
  }

  lemma ExtensionPrefix(x: string)
    requires Extension(x)
    ensures if |x| == 1 then x == "." else Extension(x[..|x| - 1]) && x[|x| - 1] != '.' && x[|x| - 1] != '/'
  {
    var n := |x| - 1;
    if n > 0 {
      assert x[n] == x[1..][n - 1];
      assert x[..n][1..] == x[1..][..n - 1];
    }
  }

  lemma Appended(p: string, y: string, c: char, x: string)
    requires x != "" && y == x[..|x| - 1] && c == x[|x| - 1]
    ensures x == y + [c] && p + x == p + y + [c]
  {
  }

  lemma {:induction false} ExtOf(p: string, x: string)
    requires Extension(x)
    ensures Ext(p + x) == x
    decreases x
  {
    ExtensionPrefix(x);
    assert x != "";
    hide Extension, Ext;
    var n := |x| - 1;
    if n == 0 {
      ExtDot(p);
    } else {
      var y, c := x[..n], x[n];
      ExtOf(p, y);
      ExtSnoc(p + y, c);
      Appended(p, y, c, x);
    }
  }

  /** A static file beside an original whose name it extends, with an extension that is not a
      compression, makes the directory unbuildable: LICENSE and LICENSE.txt. */
  lemma PlainExtensionAborts(env: Env, rejects: Router, ext: string, parse: TemplateParser, registered: set<string>,
                             paths: seq<string>, p: string, x: string)
    requires p in paths && p + x in paths && !HasSuffix(p, ext) && !HasSuffix(p + x, ext)
    requires Extension(x) && EncodingOf(x) == "identity"
    requires IsOriginal(StaticPaths(paths, ext), p)
    ensures !Buildable(env, rejects, ext, parse, registered, paths)
  {
    ExtAppended(p, x);
    var n :| 0 <= n < |paths| && paths[n] == p + x;
    hide Ext;
    assert p in StaticPaths(paths, ext);
    assert !IsOriginal(StaticPaths(paths, ext), p + x);
    assert !FileBuildable(env, ext, StaticPaths(paths, ext), parse, paths[n]);
  }

  /** Not beside a compressed variant, though: with a and a.gz, a.gz.txt is its own original. */
  lemma BesideVariant(statics: set<string>, p: string, gz: string, x: string)
    requires p in statics && IsOriginal(statics, p) && Extension(gz) && Extension(x)
    ensures !IsOriginal(statics, p + gz) && IsOriginal(statics, p + gz + x)
  {
    ExtAppended(p, gz);
    ExtAppended(p + gz, x);
  }

  // ----- Files that claim the same pattern -----

  /** Two files with a pattern in common cannot be built together, whatever the router. */
  lemma SharedPatternAborts(env: Env, rejects: Router, ext: string, parse: TemplateParser, registered: set<string>,
                            paths: seq<string>, i: nat, j: nat, pattern: string)
    requires i < j < |paths|
    requires pattern in FilePatterns(ext, StaticPaths(paths, ext), parse, paths[i])
    requires pattern in FilePatterns(ext, StaticPaths(paths, ext), parse, paths[j])
    ensures !Buildable(env, rejects, ext, parse, registered, paths)
  {
    hide FilePatterns, StaticPaths, BuildableWith, WalkPatterns, FileBuildable;
    var statics := StaticPaths(paths, ext);
    if Buildable(env, rejects, ext, parse, registered, paths) {
      BuildablePrefix(env, rejects, ext, statics, parse, registered, paths, j + 1);
      BuildableSnoc(env, rejects, ext, statics, parse, registered, paths, j);
      PatternsKept(ext, statics, parse, paths[..j], i);
      var last := FilePatterns(ext, statics, parse, paths[j]);
      var m :| 0 <= m < |last| && last[m] == pattern;
      assert pattern in Elems(FilePatterns(ext, statics, parse, paths[..j][i]));
      TakenNew(rejects, registered + Elems(WalkPatterns(ext, statics, parse, paths[..j])), last, m);
    }
  }

  /** The parser gives every file a template of its own name. */
  ghost predicate ParsesWhole(parse: TemplateParser, p: string) {
    parse(p).Some? ==> exists i :: 0 <= i < |parse(p).value| && parse(p).value[i].name == "/" + p
  }

  lemma {:induction false} PatternListed(defs: seq<TemplateDef>, n: nat, path: string, ext: string)
    requires n < |defs| && path != "" && path[0] == '/' && PatternOf(defs[n].name, path, ext).Some?
    ensures PatternOf(defs[n].name, path, ext).value in PatternsOf(defs, path, ext)
  {
    hide PatternOf;
    var last := |defs| - 1;
    if n < last {
      PatternListed(defs[..last], n, path, ext);
    } else {
      assert PatternSeq(defs[last], path, ext) == [PatternOf(defs[n].name, path, ext).value];
    }
  }

  /** The path fs.WalkDir passes for a template file. */
  function WalkPath(f: File, ext: string): (p: string)
    ensures "/" + p == FilePath(f, ext)
  {
    FilePath(f, ext)[1..]
  }

  lemma EndsInExtension(f: File, ext: string)
    requires PlainExtension(ext)
    ensures HasSuffix(WalkPath(f, ext), ext)
  {
    var p := PathOf(f.dir + [f.name]);
    PathOfSnoc(f.dir, f.name);
    PathOfSnoc(f.dir, f.name + ext);
    var q := FilePath(f, ext);
    assert q == Slashed(f.dir) + f.name + ext;
    assert q[|q| - |ext|..] == ext;
    assert WalkPath(f, ext)[|q| - 1 - |ext|..] == q[|q| - |ext|..];
  }

  /** A visible template file that parses claims the route of its names. */
  lemma TemplateClaims(f: File, ext: string, statics: set<string>, parse: TemplateParser)
    requires Visible(f) && PlainExtension(ext) && ParsesWhole(parse, WalkPath(f, ext)) && parse(WalkPath(f, ext)).Some?
    ensures "GET " + PathOf(RouteNames(f)) in FilePatterns(ext, statics, parse, WalkPath(f, ext))
  {
    var p := WalkPath(f, ext);
    EndsInExtension(f, ext);
    FileRouteNames(f, ext);
    hide FileRoute, HasSuffix, PathOf, RouteNames, FilePath, WalkPath;
    var defs := parse(p).value;
    var n :| 0 <= n < |defs| && defs[n].name == "/" + p;
    PatternListed(defs, n, "/" + p, ext);
  }

  lemma MustParse(env: Env, rejects: Router, ext: string, parse: TemplateParser, registered: set<string>, paths: seq<string>, p: string)
    requires p in paths && HasSuffix(p, ext) && parse(p).None?
    ensures !Buildable(env, rejects, ext, parse, registered, paths)
  {
    var n :| 0 <= n < |paths| && paths[n] == p;
    assert !FileBuildable(env, ext, StaticPaths(paths, ext), parse, paths[n]);
  }

  lemma DifferentPaths(a: File, b: File, ext: string)
    requires Visible(a) && Visible(b) && a != b && PlainExtension(ext)
    ensures WalkPath(a, ext) != WalkPath(b, ext)
  {
    var x, y := a.name + ext, b.name + ext;
    assert x[0] == a.name[0] && y[0] == b.name[0];
    assert ValidName(x) && ValidName(y);
    assert x[..|x| - |ext|] == a.name && y[..|y| - |ext|] == b.name;
    SnocEqual(a.dir, x, b.dir, y);
    if WalkPath(a, ext) == WalkPath(b, ext) {
      PathOfInjective(a.dir + [x], b.dir + [y]);
    }
  }

  /** Two template files that share a route cannot be built together: D.html and D/index.html,
      D/index{$}.html and D/{$}.html, D/{$}/index.html and D/index{$}.html. */
  lemma CollisionAborts(env: Env, rejects: Router, ext: string, parse: TemplateParser, registered: set<string>,
                        paths: seq<string>, a: File, b: File)
    requires Visible(a) && Visible(b) && a != b && PlainExtension(ext) && (Collide(a, b) || Collide(b, a))
    requires WalkPath(a, ext) in paths && WalkPath(b, ext) in paths
    requires ParsesWhole(parse, WalkPath(a, ext)) && ParsesWhole(parse, WalkPath(b, ext))
    ensures !Buildable(env, rejects, ext, parse, registered, paths)
  {
    var p, q, statics := WalkPath(a, ext), WalkPath(b, ext), StaticPaths(paths, ext);
    EndsInExtension(a, ext);
    EndsInExtension(b, ext);
    DifferentPaths(a, b, ext);
    RouteNamesCollide(a, b);
    hide HasSuffix, PathOf, RouteNames, WalkPath, FilePatterns, StaticPaths, Buildable, Collide, ParsesWhole, Visible;
    if parse(p).None? {
      MustParse(env, rejects, ext, parse, registered, paths, p);
    } else if parse(q).None? {
      MustParse(env, rejects, ext, parse, registered, paths, q);
    } else {
      TemplateClaims(a, ext, statics, parse);
      TemplateClaims(b, ext, statics, parse);
      SharedAborts(env, rejects, ext, parse, registered, paths, p, q, "GET " + PathOf(RouteNames(a)));
    }
  }

  lemma SharedAborts(env: Env, rejects: Router, ext: string, parse: TemplateParser, registered: set<string>,
                     paths: seq<string>, p: string, q: string, pattern: string)
    requires p in paths && q in paths && p != q
    requires pattern in FilePatterns(ext, StaticPaths(paths, ext), parse, p)
    requires pattern in FilePatterns(ext, StaticPaths(paths, ext), parse, q)
    ensures !Buildable(env, rejects, ext, parse, registered, paths)
  {
    hide FilePatterns, StaticPaths, Buildable;
    var i :| 0 <= i < |paths| && paths[i] == p;
    var j :| 0 <= j < |paths| && paths[j] == q;
    if i < j {
      SharedPatternAborts(env, rejects, ext, parse, registered, paths, i, j, pattern);
    } else {
      SharedPatternAborts(env, rejects, ext, parse, registered, paths, j, i, pattern);
    }
  }

  /** Nor can a static original and a template file with its name as route: about and about.html. */
  lemma StaticCollisionAborts(env: Env, rejects: Router, ext: string, parse: TemplateParser, registered: set<string>,
                              paths: seq<string>, q: string, f: File)
    requires Visible(f) && PlainExtension(ext) && Key(q) == PathOf(RouteNames(f))
    requires q in paths && !HasSuffix(q, ext) && IsOriginal(StaticPaths(paths, ext), q)
    requires WalkPath(f, ext) in paths && ParsesWhole(parse, WalkPath(f, ext))
    ensures !Buildable(env, rejects, ext, parse, registered, paths)
  {
    var p, statics := WalkPath(f, ext), StaticPaths(paths, ext);
    EndsInExtension(f, ext);
    hide PathOf, RouteNames, WalkPath, StaticPaths, Buildable, ParsesWhole, Visible, IsOriginal, PatternsOf, Key;
    if parse(p).None? {
      MustParse(env, rejects, ext, parse, registered, paths, p);
    } else {
      TemplateClaims(f, ext, statics, parse);
      assert GetPattern(Key(q)) in FilePatterns(ext, statics, parse, q);
      hide FilePatterns;
      SharedAborts(env, rejects, ext, parse, registered, paths, q, p, GetPattern(Key(q)));
    }
  }

  // ----- Names and content, one by one -----

  /** A last element without a dot has no extension. */
  lemma {:induction false} NoExtension(q: string, name: string)
    requires Free(name, '.') && Free(name, '/') && (q == "" || q[|q| - 1] == '/')
    ensures Ext(q + name) == ""
    decreases name
  {
    if name == "" {
      assert q + name == q;
    } else {
      var n := |name| - 1;
      NoExtension(q, name[..n]);
      ExtSnoc(q + name[..n], name[n]);
      Appended(q, name[..n], name[n], name);
    }
  }

  lemma SiblingBuildable(env: Env, statics: set<string>, p: string, x: string)
    requires p in statics && IsOriginal(statics, p) && p in env.disk && Extension(x) && EncodingOf(x) != "identity"
    ensures StaticBuildable(env, statics, p + x) <==> p + x in env.disk && Decodes(env, p + x, env.codec.hash(env.disk[p].content))
    ensures Ext(p + x) == x
  {
    ExtAppended(p, x);
    hide Ext, ContentType, Decodes;
    assert !IsOriginal(statics, p + x);
  }

  /** The library's answer is content with this hash. */
  predicate Yields(codec: Codec, content: Option<Bytes>, hash: string) {
    content.Some? && codec.hash(content.value) == hash
  }

  lemma ByExtension(codec: Codec, content: Bytes)
    ensures Extension(".gz") && EncodingOf(".gz") != "identity" && Decode(codec, EncodingOf(".gz"), content) == codec.gunzip(content)
    ensures Extension(".zst") && EncodingOf(".zst") != "identity" && Decode(codec, EncodingOf(".zst"), content) == codec.unzstd(content)
    ensures Extension(".br") && EncodingOf(".br") != "identity" && Decode(codec, EncodingOf(".br"), content) == codec.unbrotli(content)
  {
  }

  /** A sibling .gz of an original can be built exactly when gzip decodes it to content with the
      hash of the original's, a sibling .zst when zstd does, and a sibling .br when brotli does. */
  lemma GzipSibling(env: Env, statics: set<string>, p: string)
    requires p in statics && IsOriginal(statics, p) && p in env.disk && p + ".gz" in env.disk
    ensures StaticBuildable(env, statics, p + ".gz")
       <==> Yields(env.codec, env.codec.gunzip(env.disk[p + ".gz"].content), env.codec.hash(env.disk[p].content))
  {
    ByExtension(env.codec, env.disk[p + ".gz"].content);
    hide Ext, IsOriginal, StaticBuildable, Extension, EncodingOf, Decode;
    SiblingBuildable(env, statics, p, ".gz");
  }

  lemma ZstdSibling(env: Env, statics: set<string>, p: string)
    requires p in statics && IsOriginal(statics, p) && p in env.disk && p + ".zst" in env.disk
    ensures StaticBuildable(env, statics, p + ".zst")
       <==> Yields(env.codec, env.codec.unzstd(env.disk[p + ".zst"].content), env.codec.hash(env.disk[p].content))
  {
    ByExtension(env.codec, env.disk[p + ".zst"].content);
    hide Ext, IsOriginal, StaticBuildable, Extension, EncodingOf, Decode;
    SiblingBuildable(env, statics, p, ".zst");
  }

  lemma BrotliSibling(env: Env, statics: set<string>, p: string)
    requires p in statics && IsOriginal(statics, p) && p in env.disk && p + ".br" in env.disk
    ensures StaticBuildable(env, statics, p + ".br")
       <==> Yields(env.codec, env.codec.unbrotli(env.disk[p + ".br"].content), env.codec.hash(env.disk[p].content))
  {
    ByExtension(env.codec, env.disk[p + ".br"].content);
    hide Ext, IsOriginal, StaticBuildable, Extension, EncodingOf, Decode;
    SiblingBuildable(env, statics, p, ".br");
  }

  /** Stylesheets, scripts and tables have their type from their name, other files from their
      content. */
  lemma TypeByName(codec: Codec, p: string, ext: string, content: Bytes)
    ensures ContentType(codec, Ext(p + ".css"), content) == Some("text/css; charset=utf-8")
    ensures ContentType(codec, Ext(p + ".js"), content) == Some("text/javascript; charset=utf-8")
    ensures ContentType(codec, Ext(p + ".csv"), content) == Some("text/csv")
    ensures ext !in {".css", ".js", ".csv"} ==> ContentType(codec, ext, content) == codec.sniff(content)
  {
    ExtAppended(p, ".css");
    ExtAppended(p, ".js");
    ExtAppended(p, ".csv");
  }

  /** What a template with a name other than its file's registers: the name itself if that is a
      method and a path, a GET of the path for an event stream. */
  lemma NamedTemplateClaims(m: string, p: string, def: TemplateDef, path: string, ext: string)
    requires path != "" && path[0] == '/' && def.name != path && Free(p, '\n')
    ensures def.name == m + " " + p && m in ["GET", "POST", "PUT", "PATCH", "DELETE"] ==> PatternSeq(def, path, ext) == [m + " " + p]
    ensures def.name == "SSE " + p ==> PatternSeq(def, path, ext) == ["GET " + p]
  {
    hide NamedRoute;
    if def.name == m + " " + p && m in ["GET", "POST", "PUT", "PATCH", "DELETE"] {
      MethodRoute(m, p);
    }
    EventStreamRoute(p);
  }

  // ----- One file is enough to abort, and nothing else aborts -----

  /** A file that cannot be taken by itself makes the directory unbuildable. */
  lemma EveryFileMatters(env: Env, rejects: Router, ext: string, parse: TemplateParser, registered: set<string>,
                         paths: seq<string>, p: string)
    requires p in paths && !FileBuildable(env, ext, StaticPaths(paths, ext), parse, p)
    ensures !Buildable(env, rejects, ext, parse, registered, paths)
  {
    hide FileBuildable, StaticPaths;
    var n :| 0 <= n < |paths| && paths[n] == p;
  }

  /** So does a template file that does not parse or holds a template that cannot be added, a
      static file that cannot be opened, and an original whose type cannot be told. */
  lemma FileErrorsAbort(env: Env, rejects: Router, ext: string, parse: TemplateParser, registered: set<string>,
                        paths: seq<string>, p: string)
    requires p in paths
    requires if HasSuffix(p, ext) then parse(p).None? || exists i :: 0 <= i < |parse(p).value| && !parse(p).value[i].addable
             else p !in env.disk ||
                  (IsOriginal(StaticPaths(paths, ext), p) && Ext(p) !in {".css", ".js", ".csv"}
                   && env.codec.sniff(env.disk[p].content).None?)
    ensures !Buildable(env, rejects, ext, parse, registered, paths)
  {
    hide IsOriginal, StaticPaths, HasSuffix, Ext;
    EveryFileMatters(env, rejects, ext, parse, registered, paths, p);
  }

  /** So does a pattern the router refuses whatever it has. */
  lemma RefusedPatternAborts(env: Env, rejects: Router, ext: string, parse: TemplateParser, registered: set<string>,
                             paths: seq<string>, p: string, pattern: string)
    requires p in paths && pattern in FilePatterns(ext, StaticPaths(paths, ext), parse, p) && forall s :: rejects(s, pattern)
    ensures !Buildable(env, rejects, ext, parse, registered, paths)
  {
    hide FilePatterns, StaticPaths;
    var statics := StaticPaths(paths, ext);
    var n :| 0 <= n < |paths| && paths[n] == p;
    PatternsKept(ext, statics, parse, paths, n);
    assert pattern in Elems(FilePatterns(ext, statics, parse, p));
    RefusedNotTaken(rejects, registered, WalkPatterns(ext, statics, parse, paths), pattern);
  }

  lemma {:induction false} RefusedNotTaken(rejects: Router, registered: set<string>, patterns: seq<string>, pattern: string)
    requires pattern in patterns && forall s :: rejects(s, pattern)
    ensures !TakesAll(rejects, registered, patterns)
    decreases patterns
  {
    if patterns[0] != pattern {
      assert pattern in patterns[1..];
      RefusedNotTaken(rejects, registered + {patterns[0]}, patterns[1..], pattern);
    }
  }

  /** No pattern comes twice or was there before. */
  predicate AllNew(registered: set<string>, patterns: seq<string>) {
    && (forall i :: 0 <= i < |patterns| ==> patterns[i] !in registered)
    && (forall i, j :: 0 <= i < j < |patterns| ==> patterns[i] != patterns[j])
  }

  /** A router that refuses only what it has takes patterns that are all new, and no others. */
  lemma {:induction false} TakesAllNew(rejects: Router, registered: set<string>, patterns: seq<string>)
    requires forall s, p :: rejects(s, p) ==> p in s
    ensures TakesAll(rejects, registered, patterns) <==> AllNew(registered, patterns)
    decreases patterns
  {
    if patterns != [] {
      var rest := patterns[1..];
      TakesAllNew(rejects, registered + {patterns[0]}, rest);
      assert AllNew(registered, patterns) <==> patterns[0] !in registered && AllNew(registered + {patterns[0]}, rest) by {
        assert forall i :: 1 <= i < |patterns| ==> patterns[i] == rest[i - 1];
        assert forall i :: 0 <= i < |rest| ==> rest[i] == patterns[i + 1];
      }
    }
  }

  /** With such a router, a directory is buildable exactly when each file can be taken by itself
      and no pattern comes twice or was there before. */
  lemma BuildableIff(env: Env, rejects: Router, ext: string, parse: TemplateParser, registered: set<string>, paths: seq<string>)
    requires forall s, p :: rejects(s, p) ==> p in s
    ensures Buildable(env, rejects, ext, parse, registered, paths) <==>
            var statics := StaticPaths(paths, ext);
            && (forall i :: 0 <= i < |paths| ==> FileBuildable(env, ext, statics, parse, paths[i]))
            && AllNew(registered, WalkPatterns(ext, statics, parse, paths))
  {
    hide FileBuildable, StaticPaths, WalkPatterns, AllNew, TakesAll;
    TakesAllNew(rejects, registered, WalkPatterns(ext, StaticPaths(paths, ext), parse, paths));
  }
}
