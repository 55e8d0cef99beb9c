/** Which directories can be built at all (build.go, instance.go): a condition on the files,
    their names and the router, stated without the index that the build fills. */
module BuildRules {
  import opened StaticIndex
  import opened TemplateRoutes
  import opened Text
  import opened Wrappers

  /** A template parsed from a file: its name, and whether it can join the template set. */
  datatype TemplateDef = TemplateDef(name: string, addable: bool)

  type TemplateParser = string -> Option<seq<TemplateDef>>

  /** The router refuses a pattern it has, and may refuse others. */
  type Router = (set<string>, string) -> bool

  // ----- The router -----

  /** The router takes these patterns one after the other. */
  predicate TakesAll(rejects: Router, registered: set<string>, patterns: seq<string>)
    decreases patterns
  {
    patterns == [] ||
    (patterns[0] !in registered && !rejects(registered, patterns[0])
     && TakesAll(rejects, registered + {patterns[0]}, patterns[1..]))
  }

  function Elems(patterns: seq<string>): set<string> {
    set p | p in patterns
  }

  lemma ElemsConcat(a: seq<string>, b: seq<string>)
    ensures Elems(a + b) == Elems(a) + Elems(b)
  {
  }

  lemma {:induction false} TakesConcat(rejects: Router, registered: set<string>, a: seq<string>, b: seq<string>)
    ensures TakesAll(rejects, registered, a + b)
       <==> TakesAll(rejects, registered, a) && TakesAll(rejects, registered + Elems(a), b)
    decreases a
  {
    if a == [] {
      assert a + b == b && registered + Elems(a) == registered;
    } else {
      assert (a + b)[0] == a[0] && (a + b)[1..] == a[1..] + b;
      TakesConcat(rejects, registered + {a[0]}, a[1..], b);
      assert a == [a[0]] + a[1..];
      assert registered + {a[0]} + Elems(a[1..]) == registered + Elems(a);
    }
  }

  lemma TakesOne(rejects: Router, patterns: set<string>, pattern: string)
    ensures TakesAll(rejects, patterns, [pattern]) <==> pattern !in patterns && !rejects(patterns, pattern)
  {
    var one := [pattern];
    assert one[1..] == [];
  }

  /** Patterns taken are all different. */
  lemma {:induction false} TakesDistinct(rejects: Router, registered: set<string>, patterns: seq<string>, i: nat, j: nat)
    requires TakesAll(rejects, registered, patterns) && i < j < |patterns|
    ensures patterns[i] != patterns[j] && patterns[i] !in registered
    decreases patterns
  {
    if i > 0 {
      TakesDistinct(rejects, registered + {patterns[0]}, patterns[1..], i - 1, j - 1);
    } else {
      TakenNew(rejects, registered + {patterns[0]}, patterns[1..], j - 1);
    }
  }

  lemma {:induction false} TakenNew(rejects: Router, registered: set<string>, patterns: seq<string>, j: nat)
    requires TakesAll(rejects, registered, patterns) && j < |patterns|
    ensures patterns[j] !in registered
    decreases patterns
  {
    if j > 0 {
      TakenNew(rejects, registered + {patterns[0]}, patterns[1..], j - 1);
    }
  }

  // ----- Templates -----

  function PatternSeq(def: TemplateDef, path: string, ext: string): seq<string>
    requires path != "" && path[0] == '/'
  {
    match PatternOf(def.name, path, ext)
    case None => []
    case Some(p) => [p]
  }

  /** The patterns the templates of one file register, in order. */
  function PatternsOf(defs: seq<TemplateDef>, path: string, ext: string): seq<string>
    requires path != "" && path[0] == '/'
  {
    if defs == [] then []
    else PatternsOf(defs[..|defs| - 1], path, ext) + PatternSeq(defs[|defs| - 1], path, ext)
  }

  predicate AllAddable(defs: seq<TemplateDef>) {
    forall i :: 0 <= i < |defs| ==> defs[i].addable
  }

  // ----- Static files -----

  /** The name without its extension. */
  function Stem(p: string): (s: string)
    ensures Ext(p) != "" ==> |s| < |p|
    ensures Ext(p) == "" ==> s == p
    ensures Key(s) == StemKey(p)
  {
    StemExt(p);
    TrimSuffix(p, Ext(p))
  }

  /** A file is served under its own name unless it extends the name of one that is. */
  predicate IsOriginal(statics: set<string>, p: string)
    decreases |p|
  {
    Ext(p) == "" || Stem(p) !in statics || !IsOriginal(statics, Stem(p))
  }

  /** The key under which a file is served. */
  function OwnerKey(statics: set<string>, p: string): string {
    if IsOriginal(statics, p) then Key(p) else Key(Stem(p))
  }

  /** An original needs a content type; any other file must be a compressed variant with the
      content of the original it is named after. */
  predicate StaticBuildable(env: Env, statics: set<string>, p: string) {
    && p in env.disk
    && if IsOriginal(statics, p) then ContentType(env.codec, Ext(p), env.disk[p].content).Some?
       else Stem(p) in env.disk && Compressed(p) && Decodes(env, p, env.codec.hash(env.disk[Stem(p)].content))
  }

  /** The file decodes, by its extension, to content with this hash. */
  predicate Decodes(env: Env, p: string, hash: string)
    requires p in env.disk
  {
    var content := Decode(env.codec, EncodingOf(Ext(p)), env.disk[p].content);
    content.Some? && env.codec.hash(content.value) == hash
  }

  // ----- The whole walk -----

  function StaticPaths(paths: seq<string>, ext: string): set<string> {
    set p | p in paths && !HasSuffix(p, ext)
  }

  predicate FileBuildable(env: Env, ext: string, statics: set<string>, parse: TemplateParser, p: string) {
    if HasSuffix(p, ext) then parse(p).Some? && AllAddable(parse(p).value)
    else StaticBuildable(env, statics, p)
  }

  /** The patterns one file registers: a template's, an original's own, none for a variant. */
  function FilePatterns(ext: string, statics: set<string>, parse: TemplateParser, p: string): seq<string> {
    if HasSuffix(p, ext) then (if parse(p).Some? then PatternsOf(parse(p).value, "/" + p, ext) else [])
    else if IsOriginal(statics, p) then [GetPattern(Key(p))]
    else []
  }

  function WalkPatterns(ext: string, statics: set<string>, parse: TemplateParser, paths: seq<string>): seq<string> {
    if paths == [] then []
    else
      var n := |paths| - 1;
      WalkPatterns(ext, statics, parse, paths[..n]) + FilePatterns(ext, statics, parse, paths[n])
  }

  predicate AllBuildable(env: Env, ext: string, statics: set<string>, parse: TemplateParser, paths: seq<string>) {
    forall i :: 0 <= i < |paths| ==> FileBuildable(env, ext, statics, parse, paths[i])
  }

  /** Each file can be taken by itself, and the router takes all patterns in walk order. */
  predicate BuildableWith(env: Env, rejects: Router, ext: string, statics: set<string>, parse: TemplateParser,
                          registered: set<string>, paths: seq<string>) {
    && AllBuildable(env, ext, statics, parse, paths)
    && TakesAll(rejects, registered, WalkPatterns(ext, statics, parse, paths))
  }

  predicate Buildable(env: Env, rejects: Router, ext: string, parse: TemplateParser, registered: set<string>, paths: seq<string>) {
    BuildableWith(env, rejects, ext, StaticPaths(paths, ext), parse, registered, paths)
  }

  /** One more file. */
  lemma BuildableSnoc(env: Env, rejects: Router, ext: string, statics: set<string>, parse: TemplateParser,
                      registered: set<string>, paths: seq<string>, n: nat)
    requires n < |paths|
    ensures BuildableWith(env, rejects, ext, statics, parse, registered, paths[..n + 1])
       <==> && BuildableWith(env, rejects, ext, statics, parse, registered, paths[..n])
            && FileBuildable(env, ext, statics, parse, paths[n])
            && TakesAll(rejects, registered + Elems(WalkPatterns(ext, statics, parse, paths[..n])),
                        FilePatterns(ext, statics, parse, paths[n]))
    ensures Elems(WalkPatterns(ext, statics, parse, paths[..n + 1]))
         == Elems(WalkPatterns(ext, statics, parse, paths[..n])) + Elems(FilePatterns(ext, statics, parse, paths[n]))
  {
    hide FileBuildable, FilePatterns, TakesAll, Elems;
    var upTo := paths[..n + 1];
    assert upTo[..n] == paths[..n] && upTo[n] == paths[n];
    var a, b := WalkPatterns(ext, statics, parse, paths[..n]), FilePatterns(ext, statics, parse, paths[n]);
    assert WalkPatterns(ext, statics, parse, upTo) == a + b;
    hide WalkPatterns;
    TakesConcat(rejects, registered, a, b);
    ElemsConcat(a, b);
    assert forall i :: 0 <= i < n ==> upTo[i] == paths[..n][i];
  }

  /** What cannot be built cannot be built with more files after it. */
  lemma {:induction false} BuildablePrefix(env: Env, rejects: Router, ext: string, statics: set<string>, parse: TemplateParser,
                                           registered: set<string>, paths: seq<string>, n: nat)
    requires n <= |paths| && BuildableWith(env, rejects, ext, statics, parse, registered, paths)
    ensures BuildableWith(env, rejects, ext, statics, parse, registered, paths[..n])
    decreases |paths| - n
  {
    hide BuildableWith;
    if n == |paths| {
      assert paths[..n] == paths;
    } else {
      BuildablePrefix(env, rejects, ext, statics, parse, registered, paths, n + 1);
      BuildableSnoc(env, rejects, ext, statics, parse, registered, paths, n);
    }
  }

  /** In a directory that can be built every template file parses, no two patterns are the
      same, and all patterns of every file are among those registered. */
  lemma BuildableServes(env: Env, rejects: Router, ext: string, parse: TemplateParser, registered: set<string>,
                        paths: seq<string>, p: string)
    requires Buildable(env, rejects, ext, parse, registered, paths) && p in paths
    ensures HasSuffix(p, ext) ==> parse(p).Some?
    ensures var all := WalkPatterns(ext, StaticPaths(paths, ext), parse, paths);
            && Elems(FilePatterns(ext, StaticPaths(paths, ext), parse, p)) <= Elems(all)
            && forall i, j :: 0 <= i < j < |all| ==> all[i] != all[j]
  {
    var statics := StaticPaths(paths, ext);
    var all := WalkPatterns(ext, statics, parse, paths);
    var n :| 0 <= n < |paths| && paths[n] == p;
    assert FileBuildable(env, ext, statics, parse, paths[n]);
    hide FileBuildable, FilePatterns, StaticPaths, HasSuffix;
    PatternsKept(ext, statics, parse, paths, n);
    forall i, j | 0 <= i < j < |all|
      ensures all[i] != all[j]
    {
      TakesDistinct(rejects, registered, all, i, j);
    }
  }

  lemma {:induction false} PatternsKept(ext: string, statics: set<string>, parse: TemplateParser, paths: seq<string>, n: nat)
    requires n < |paths|
    ensures Elems(FilePatterns(ext, statics, parse, paths[n])) <= Elems(WalkPatterns(ext, statics, parse, paths))
  {
    hide FilePatterns;
    var last := |paths| - 1;
    if n < last {
      PatternsKept(ext, statics, parse, paths[..last], n);
    }
  }
}
