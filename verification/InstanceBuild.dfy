/** The builder (build.go, instance.go), updated in place while a directory is walked. */
module InstanceBuild {
  import opened BuildRules
  import opened Negotiation
  import opened Paths
  import opened StaticIndex
  import opened TemplateRoutes
  import opened Text
  import opened Wrappers

  /** Whether a static file can be added to the index as it stands. */
  predicate Admissible(env: Env, rejects: Router, files: Files, patterns: set<string>, path: string) {
    && path in env.disk
    && if StemKey(path) in files then
         && Compressed(path)
         && Decode(env.codec, EncodingOf(Ext(path)), env.disk[path].content).Some?
         && env.codec.hash(Decode(env.codec, EncodingOf(Ext(path)), env.disk[path].content).value) == files[StemKey(path)].hash
       else
         && ContentType(env.codec, Ext(path), env.disk[path].content).Some?
         && GetPattern(Key(path)) !in patterns && !rejects(patterns, GetPattern(Key(path)))
  }

  /** Whether a file can be added to the instance as it stands. */
  predicate Visitable(env: Env, rejects: Router, ext: string, files: Files, patterns: set<string>,
                      path: string, parsed: Option<seq<TemplateDef>>) {
    if HasSuffix(path, ext) then
      && parsed.Some? && AllAddable(parsed.value)
      && TakesAll(rejects, patterns, PatternsOf(parsed.value, "/" + path, ext))
    else Admissible(env, rejects, files, patterns, path)
  }

  /** The patterns it then registers. */
  function VisitPatterns(ext: string, files: Files, path: string, parsed: Option<seq<TemplateDef>>): seq<string> {
    if HasSuffix(path, ext) then (if parsed.Some? then PatternsOf(parsed.value, "/" + path, ext) else [])
    else if StemKey(path) in files then []
    else [GetPattern(Key(path))]
  }

  /** ... and the key it then belongs to, if it is static. */
  ghost function VisitOwner(ext: string, files: Files, owner: map<string, string>, path: string): map<string, string> {
    if HasSuffix(path, ext) then owner
    else owner[path := if StemKey(path) in files then StemKey(path) else Key(path)]
  }

  /** The registered patterns are listed once each, and counted. */
  ghost predicate Routed(patterns: set<string>, routes: seq<string>, count: nat) {
    count == |routes| == |patterns| && forall p :: p in patterns <==> p in routes
  }

  /** The counters of the index. */
  ghost predicate Counted(files: Files, owner: map<string, string>, keys: seq<string>, staticFiles: int, alternates: int) {
    && Lists(keys, files) && staticFiles == |files|
    && alternates == Alternates(files, keys)
    && staticFiles + alternates == |owner|
  }

  lemma NotIndexed(files: Files, patterns: set<string>, k: string)
    requires Served(files, patterns) && GetPattern(k) !in patterns
    ensures k !in files
  {
  }

  lemma KeyServed(env: Env, files: Files, patterns: set<string>, owner: map<string, string>, k: string)
    requires IndexOk(env, files, patterns, owner) && k in files
    ensures GetPattern(k) in patterns
  {
  }

  lemma CountedIdentity(files: Files, owner: map<string, string>, keys: seq<string>, staticFiles: int, alternates: int,
                        k: string, path: string, fi: FileInfo)
    requires Counted(files, owner, keys, staticFiles, alternates)
    requires k !in files && path !in owner && |fi.encodings| == 1
    ensures Counted(files[k := fi], owner[path := k], keys + [k], staticFiles + 1, alternates)
  {
    AlternatesAdded(files, keys, k, fi);
  }

  lemma CountedVariant(files: Files, owner: map<string, string>, keys: seq<string>, staticFiles: int, alternates: int,
                       k: string, path: string, fi: FileInfo)
    requires Counted(files, owner, keys, staticFiles, alternates)
    requires k in files && path !in owner && |fi.encodings| == |files[k].encodings| + 1
    ensures Counted(files[k := fi], owner[path := k], keys, staticFiles, alternates + 1)
  {
    AllListed(keys, files.Keys, k);
    AlternatesUpdated(files, keys, k, fi);
  }

  lemma NewIdentity(env: Env, files: Files, patterns: set<string>, owner: map<string, string>, keys: seq<string>,
                    staticFiles: int, alternates: int, path: string, contentType: string, fi: FileInfo)
    requires IndexOk(env, files, patterns, owner) && VisitedInOrder(owner.Keys, path) && path in env.disk
    requires Counted(files, owner, keys, staticFiles, alternates)
    requires GetPattern(Key(path)) !in patterns && StemKey(path) !in files
    requires ContentType(env.codec, Ext(path), env.disk[path].content) == Some(contentType)
    requires fi == IdentityInfo(path, env.disk[path], env.codec.hash(env.disk[path].content), contentType)
    ensures IndexOk(env, files[Key(path) := fi], patterns + {GetPattern(Key(path))}, owner[path := Key(path)])
    ensures Counted(files[Key(path) := fi], owner[path := Key(path)], keys + [Key(path)], staticFiles + 1, alternates)
  {
    hide IndexOk, Counted, Ext, StemKey, VisitedInOrder, ContentType, IdentityInfo, Key, GetPattern;
    IndexedIdentity(env, files, patterns, owner, path, contentType);
    CountedIdentity(files, owner, keys, staticFiles, alternates, Key(path), path, fi);
  }

  lemma IndexedIdentity(env: Env, files: Files, patterns: set<string>, owner: map<string, string>, path: string, contentType: string)
    requires IndexOk(env, files, patterns, owner) && VisitedInOrder(owner.Keys, path) && path in env.disk
    requires GetPattern(Key(path)) !in patterns && StemKey(path) !in files
    requires ContentType(env.codec, Ext(path), env.disk[path].content) == Some(contentType)
    ensures Key(path) !in files && path !in owner
    ensures var f := env.disk[path];
            var fi := IdentityInfo(path, f, env.codec.hash(f.content), contentType);
            IndexOk(env, files[Key(path) := fi], patterns + {GetPattern(Key(path))}, owner[path := Key(path)])
  {
    hide FileOk, FilesOk, Owned, SiblingsAttached, Ext, StemKey, ContentType;
    var f := env.disk[path];
    NotIndexed(files, patterns, Key(path));
    IdentityOk(env, path, contentType);
    IdentityAdded(env, files, patterns, owner, path, IdentityInfo(path, f, env.codec.hash(f.content), contentType));
  }

  lemma NotVariant(files: Files, owner: map<string, string>, k: string, path: string)
    requires Owned(files, owner) && k in files && path !in owner
    ensures path !in Variants(files[k])
  {
  }

  lemma IndexedVariant(env: Env, files: Files, patterns: set<string>, owner: map<string, string>, path: string,
                       e: EncodingInfo, sorted: seq<EncodingInfo>)
    requires IndexOk(env, files, patterns, owner) && VisitedInOrder(owner.Keys, path) && path in env.disk
    requires StemKey(path) in files && Compressed(path)
    requires e == EncodingInfo(EncodingOf(Ext(path)), path, env.disk[path].size, env.disk[path].modtime)
    requires Decode(env.codec, e.encoding, env.disk[path].content).Some?
    requires env.codec.hash(Decode(env.codec, e.encoding, env.disk[path].content).value) == files[StemKey(path)].hash
    requires SortedBySize(sorted) && multiset(sorted) == multiset(files[StemKey(path)].encodings + [e])
    ensures |sorted| == |files[StemKey(path)].encodings| + 1 && path !in owner
    ensures IndexOk(env, files[StemKey(path) := files[StemKey(path)].(encodings := sorted)], patterns, owner[path := StemKey(path)])
  {
    var k := StemKey(path);
    StemExt(path);
    NotVariant(files, owner, k, path);
    assert FileOk(env, k, files[k]);
    VariantOk(env, k, files[k], e, sorted);
    VariantAdded(env, files, patterns, owner, path, files[k].(encodings := sorted));
  }

  lemma MorePatterns(env: Env, files: Files, patterns: set<string>, more: set<string>, owner: map<string, string>)
    requires IndexOk(env, files, patterns, owner) && patterns <= more
    ensures IndexOk(env, files, more, owner)
  {
  }

  class Builder {
    const env: Env
    const rejects: Router
    const extension: string
    var files: Files
    var patterns: set<string>
    var routes: seq<string>
    var routeCount: nat
    var templateFiles: nat
    var templateDefinitions: nat
    var staticFiles: nat
    var alternates: int
    ghost var owner: map<string, string>   // visited static files, and the key each belongs to
    ghost var keys: seq<string>            // the keys of the index, in the order they were added

    ghost predicate Valid()
      reads this
    {
      && IndexOk(env, files, patterns, owner)
      && Routed(patterns, routes, routeCount)
      && Counted(files, owner, keys, staticFiles, alternates)
    }

    constructor (env: Env, rejects: Router, extension: string)
      ensures Valid() && files == map[] && owner == map[] && patterns == {}
      ensures this.env == env && this.rejects == rejects && this.extension == extension
    {
      this.env, this.rejects, this.extension := env, rejects, extension;
      files, patterns, routes, routeCount := map[], {}, [], 0;
      templateFiles, templateDefinitions, staticFiles, alternates := 0, 0, 0, 0;
      owner, keys := map[], [];
    }

    /** router.HandleFunc, whose panic is caught, and the bookkeeping that follows it. */
    method Register(pattern: string) returns (ok: bool)
      requires Routed(patterns, routes, routeCount)
      modifies this`patterns, this`routes, this`routeCount
      ensures Routed(patterns, routes, routeCount)
      ensures ok <==> pattern !in old(patterns) && !rejects(old(patterns), pattern)
      ensures ok ==> patterns == old(patterns) + {pattern} && routes == old(routes) + [pattern]
      ensures !ok ==> patterns == old(patterns) && routes == old(routes)
    {
      ok := pattern !in patterns && !rejects(patterns, pattern);
      if ok {
        patterns := patterns + {pattern};
        routes := routes + [pattern];
        routeCount := routeCount + 1;
      }
    }

    /** A file that is its own original. */
    method AddIdentity(path: string, contentType: string) returns (ok: bool)
      requires Valid() && path in env.disk && VisitedInOrder(owner.Keys, path) && StemKey(path) !in files
      requires ContentType(env.codec, Ext(path), env.disk[path].content) == Some(contentType)
      modifies this`files, this`patterns, this`routes, this`routeCount, this`staticFiles, this`owner, this`keys
      ensures ok <==> GetPattern(Key(path)) !in old(patterns) && !rejects(old(patterns), GetPattern(Key(path)))
      ensures ok ==> Valid() && owner == old(owner)[path := Key(path)]
      ensures ok ==> patterns == old(patterns) + {GetPattern(Key(path))}
    {
      hide IndexOk, Counted, Ext, StemKey, VisitedInOrder, Routed, ContentType, IdentityInfo, Key, GetPattern;
      var f := env.disk[path];
      var fi := IdentityInfo(path, f, env.codec.hash(f.content), contentType);
      ok := Register(GetPattern(Key(path)));
      if ok {
        NewIdentity(env, files, old(patterns), owner, keys, staticFiles, alternates, path, contentType, fi);
        Record(Key(path), path, fi);
      }
    }

    /** Enter a new key in the index. */
    method Record(key: string, ghost path: string, fi: FileInfo)
      requires IndexOk(env, files[key := fi], patterns, owner[path := key]) && Routed(patterns, routes, routeCount)
      requires Counted(files[key := fi], owner[path := key], keys + [key], staticFiles + 1, alternates)
      modifies this`files, this`staticFiles, this`owner, this`keys
      ensures Valid() && owner == old(owner)[path := key]
      ensures files == old(files)[key := fi] && staticFiles == old(staticFiles) + 1 && keys == old(keys) + [key]
    {
      hide IndexOk, Counted, Routed;
      staticFiles := staticFiles + 1;
      files := files[key := fi];
      owner := owner[path := key];
      keys := keys + [key];
    }

    /** A compressed variant of a file already in the index. */
    method AddVariant(path: string, encoding: string, sri: string) returns (ok: bool)
      requires Valid() && path in env.disk && VisitedInOrder(owner.Keys, path) && StemKey(path) in files
      requires Compressed(path) && encoding == EncodingOf(Ext(path))
      requires Decode(env.codec, encoding, env.disk[path].content).Some?
      requires sri == env.codec.hash(Decode(env.codec, encoding, env.disk[path].content).value)
      modifies this`files, this`alternates, this`owner
      ensures ok <==> old(files)[StemKey(path)].hash == sri
      ensures ok ==> Valid() && owner == old(owner)[path := StemKey(path)]
    {
      hide IndexOk, Counted, Ext, StemKey, VisitedInOrder, Decode;
      var key, f := StemKey(path), env.disk[path];
      var file := files[key];
      if file.hash != sri {
        return false;
      }
      var e := EncodingInfo(encoding, path, f.size, f.modtime);
      var sorted := SortBySize(file.encodings + [e]);
      IndexedVariant(env, files, patterns, owner, path, e, sorted);
      CountedVariant(files, owner, keys, staticFiles, alternates, key, path, file.(encodings := sorted));
      files := files[key := file.(encodings := sorted)];
      alternates := alternates + 1;
      owner := owner[path := key];
      ok := true;
    }

    /** addStaticFileHandler.  A file beside an indexed stem, with an extension that is not a
        compression, overwrites the stem's record and then fails to register its pattern. */
    method AddStaticFile(path: string) returns (ok: bool)
      requires Valid() && ValidPath(path) && VisitedInOrder(owner.Keys, path)
      modifies this`files, this`patterns, this`routes, this`routeCount, this`staticFiles, this`alternates, this`owner, this`keys
      ensures ok <==> Admissible(env, rejects, old(files), old(patterns), path)
      ensures ok ==> Valid() && owner == old(owner)[path := if StemKey(path) in old(files) then StemKey(path) else Key(path)]
      ensures ok ==> patterns == old(patterns) + (if StemKey(path) in old(files) then {} else {GetPattern(Key(path))})
    {
      hide IndexOk, Counted, Clean, Ext, TrimSuffix, Decode, ContentType, VisitedInOrder, ValidPath;
      if path !in env.disk {
        return false;
      }
      CleanValid(path);
      var f, ext := env.disk[path], Ext(path);
      var key := TrimSuffix(Clean("/" + path), ext);
      if key in files {
        var encoding := EncodingOf(ext);
        var content := Decode(env.codec, encoding, f.content);
        if content.None? {
          return false;
        }
        var sri := env.codec.hash(content.value);
        if encoding == "identity" {
          var ctype := ContentType(env.codec, ext, f.content);
          if ctype.None? {
            return false;
          }
          KeyServed(env, files, patterns, owner, key);
          files := files[key := FileInfo(key, sri, ctype.value, [EncodingInfo(encoding, path, f.size, f.modtime)])];
          ok := Register(GetPattern(key));
        } else {
          ok := AddVariant(path, encoding, sri);
        }
      } else {
        var ctype := ContentType(env.codec, ext, f.content);
        if ctype.None? {
          return false;
        }
        ok := AddIdentity(path, ctype.value);
      }
    }

    /** One template of a file. */
    method AddTemplate(path: string, def: TemplateDef) returns (ok: bool)
      requires Valid() && path != "" && path[0] == '/'
      modifies this`patterns, this`routes, this`routeCount, this`templateDefinitions
      ensures ok <==> def.addable && TakesAll(rejects, old(patterns), PatternSeq(def, path, extension))
      ensures ok ==> Valid() && templateDefinitions == old(templateDefinitions) + 1
      ensures ok ==> patterns == old(patterns) + Elems(PatternSeq(def, path, extension))
    {
      hide IndexOk, Counted, PatternOf, Routed;
      if !def.addable {
        return false;
      }
      templateDefinitions := templateDefinitions + 1;
      var pattern := PatternOf(def.name, path, extension);
      ok := true;
      if pattern.Some? {
        TakesOne(rejects, patterns, pattern.value);
        ok := Register(pattern.value);
        if ok {
          MorePatterns(env, files, old(patterns), patterns, owner);
        }
      }
    }

    /** addTemplateHandler, over the templates parsed from the file in any order. */
    method AddTemplateFile(path: string, parsed: Option<seq<TemplateDef>>) returns (ok: bool)
      requires Valid() && ValidPath(path)
      modifies this`patterns, this`routes, this`routeCount, this`templateFiles, this`templateDefinitions
      ensures ok <==> && parsed.Some? && AllAddable(parsed.value)
                      && TakesAll(rejects, old(patterns), PatternsOf(parsed.value, "/" + path, extension))
      ensures ok ==> Valid() && templateFiles == old(templateFiles) + 1
      ensures ok ==> templateDefinitions == old(templateDefinitions) + |parsed.value|
      ensures ok ==> patterns == old(patterns) + Elems(PatternsOf(parsed.value, "/" + path, extension))
    {
      hide IndexOk, Counted, PatternSeq, Clean, ValidPath, Routed, TakesAll, Elems;
      if parsed.None? {
        return false;
      }
      CleanValid(path);
      var cleaned, defs := Clean("/" + path), parsed.value;
      templateFiles := templateFiles + 1;
      NoTemplates(rejects, patterns, defs, cleaned, extension);
      for n := 0 to |defs|
        invariant Valid()
        invariant templateFiles == old(templateFiles) + 1 && templateDefinitions == old(templateDefinitions) + n
        invariant patterns == old(patterns) + Elems(PatternsOf(defs[..n], cleaned, extension))
        invariant TemplatesTaken(rejects, old(patterns), defs[..n], cleaned, extension)
      {
        TemplatesTakenSnoc(rejects, old(patterns), defs, n, cleaned, extension);
        var added := AddTemplate(cleaned, defs[n]);
        if !added {
          TemplatesTakenPrefix(rejects, old(patterns), defs, n + 1, cleaned, extension);
          return false;
        }
      }
      assert defs[..|defs|] == defs;
      ok := true;
    }

    /** One step of the walk: templates by extension, everything else static. */
    method VisitFile(path: string, parsed: Option<seq<TemplateDef>>) returns (ok: bool)
      requires Valid() && ValidPath(path) && VisitedInOrder(owner.Keys, path)
      modifies this
      ensures ok <==> Visitable(env, rejects, extension, old(files), old(patterns), path, parsed)
      ensures ok ==> Valid() && patterns == old(patterns) + Elems(VisitPatterns(extension, old(files), path, parsed))
      ensures ok ==> owner == VisitOwner(extension, old(files), old(owner), path)
      ensures ok ==> templateFiles == old(templateFiles) + if HasSuffix(path, extension) then 1 else 0
    {
      hide IndexOk, Counted, PatternsOf, HasSuffix, VisitedInOrder, ValidPath, Admissible, StemKey, Routed, TakesAll,
        AllAddable, Key, GetPattern;
      if HasSuffix(path, extension) {
        ok := AddTemplateFile(path, parsed);
      } else {
        ok := AddStaticFile(path);
      }
    }

    /** The walk of Config.Instance; the first error ends the build. */
    method Walk(paths: seq<string>, parse: TemplateParser) returns (ok: bool)
      requires Valid() && owner == map[]
      requires WalkOrder(paths)
      modifies this
      ensures ok <==> Buildable(env, rejects, extension, parse, old(patterns), paths)
      ensures ok ==> Valid() && owner.Keys == StaticPaths(paths, extension) && OwnersOk(owner.Keys, owner)
      ensures ok ==> patterns == old(patterns) + Elems(WalkPatterns(extension, owner.Keys, parse, paths))
      ensures ok ==> templateFiles - old(templateFiles) == |paths| - |owner|
    {
      hide Valid, HasSuffix, StaticPaths, VisitedInOrder, ValidPath, Visitable, VisitPatterns, VisitOwner, Progress, Buildable,
        WalkOrder, OwnersOk, Elems, WalkPatterns;
      ProgressStarts(env, rejects, extension, parse, patterns, paths);
      for n := 0 to |paths|
        invariant Valid() && Progress(env, rejects, extension, parse, old(patterns), paths, n, patterns, owner)
        invariant templateFiles - old(templateFiles) == n - |owner|
      {
        ValidIndex();
        ProgressStep(env, rejects, extension, parse, old(patterns), paths, n, files, patterns, owner);
        var added := VisitFile(paths[n], parse(paths[n]));
        if !added {
          return false;
        }
      }
      ProgressEnds(env, rejects, extension, parse, old(patterns), paths, patterns, owner);
      ok := true;
    }

    lemma ValidIndex()
      requires Valid()
      ensures IndexOk(env, files, patterns, owner)
    {
    }
  }

  /** What fs.WalkDir guarantees: each file once, by a valid path, a name before its extensions. */
  ghost predicate WalkOrder(paths: seq<string>) {
    && (forall i :: 0 <= i < |paths| ==> ValidPath(paths[i]))
    && (forall i, j :: 0 <= i < j < |paths| ==> paths[i] != paths[j])
    && (forall i, j :: 0 <= i < |paths| && 0 <= j < |paths| && Ext(paths[i]) != "" && StemKey(paths[i]) == "/" + paths[j] ==> j < i)
  }

  // ----- The index against the names alone -----

  /** A file belongs to its own key or to that of the original it is named after. */
  ghost predicate OwnersOk(statics: set<string>, owner: map<string, string>) {
    forall p :: p in owner ==> owner[p] == OwnerKey(statics, p)
  }

  lemma OriginalRecorded(env: Env, k: string, fi: FileInfo)
    requires FileOk(env, k, fi)
    ensures k[1..] in env.disk && k[1..] in Variants(fi) && fi.hash == env.codec.hash(env.disk[k[1..]].content)
  {
    hide Ext, ContentType, SortedBySize, DistinctNames;
    var id := fi.encodings[Find(fi.encodings, "identity")];
    assert EncodingOk(env, k, fi.hash, id);
    assert k + "" == k && ("/" + id.path)[1..] == id.path;
    assert id.path in Variants(fi);
  }

  lemma KeyIndexed(env: Env, files: Files, patterns: set<string>, owner: map<string, string>, q: string)
    requires IndexOk(env, files, patterns, owner)
    ensures Key(q) in files <==> q in owner && owner[q] == Key(q)
    ensures Key(q) in files ==> q in env.disk && files[Key(q)].hash == env.codec.hash(env.disk[q].content)
  {
    hide FileOk, SiblingsAttached, Served, Variants;
    assert Key(q)[1..] == q;
    if Key(q) in files {
      OriginalRecorded(env, Key(q), files[Key(q)]);
    }
  }

  lemma OwnKey(statics: set<string>, q: string)
    ensures OwnerKey(statics, q) == Key(q) <==> IsOriginal(statics, q)
  {
    if !IsOriginal(statics, q) {
      assert |Key(Stem(q))| < |Key(q)|;
    }
  }

  lemma StemIndexed(env: Env, files: Files, patterns: set<string>, owner: map<string, string>, statics: set<string>, p: string)
    requires IndexOk(env, files, patterns, owner) && OwnersOk(statics, owner) && p !in owner && owner.Keys <= statics
    requires Ext(p) != "" && Stem(p) in statics ==> Stem(p) in owner
    ensures StemKey(p) in files <==> !IsOriginal(statics, p)
  {
    hide IndexOk, StemKey, Key, Ext;
    KeyIndexed(env, files, patterns, owner, Stem(p));
    OwnKey(statics, Stem(p));
  }

  lemma AdmissibleIff(env: Env, rejects: Router, files: Files, patterns: set<string>, owner: map<string, string>,
                      statics: set<string>, p: string)
    requires IndexOk(env, files, patterns, owner) && OwnersOk(statics, owner) && p !in owner && owner.Keys <= statics
    requires Ext(p) != "" && Stem(p) in statics ==> Stem(p) in owner
    ensures Admissible(env, rejects, files, patterns, p)
       <==> StaticBuildable(env, statics, p)
            && (IsOriginal(statics, p) ==> TakesAll(rejects, patterns, [GetPattern(Key(p))]))
  {
    hide IndexOk, StemKey, Key, Ext, ContentType, Compressed, GetPattern, IsOriginal, OwnersOk, Decode;
    StemIndexed(env, files, patterns, owner, statics, p);
    KeyIndexed(env, files, patterns, owner, Stem(p));
    TakesOne(rejects, patterns, GetPattern(Key(p)));
  }

  /** One step of the walk needs what the names alone say it needs, and does what they say. */
  lemma StaticStep(env: Env, rejects: Router, ext: string, files: Files, patterns: set<string>, owner: map<string, string>,
                   parse: TemplateParser, statics: set<string>, p: string)
    requires IndexOk(env, files, patterns, owner) && OwnersOk(statics, owner) && p !in owner && owner.Keys <= statics
    requires Ext(p) != "" && Stem(p) in statics ==> Stem(p) in owner
    requires !HasSuffix(p, ext)
    ensures Visitable(env, rejects, ext, files, patterns, p, parse(p))
       <==> FileBuildable(env, ext, statics, parse, p) && TakesAll(rejects, patterns, FilePatterns(ext, statics, parse, p))
    ensures VisitPatterns(ext, files, p, parse(p)) == FilePatterns(ext, statics, parse, p)
    ensures OwnersOk(statics, VisitOwner(ext, files, owner, p))
  {
    StemIndexed(env, files, patterns, owner, statics, p);
    AdmissibleIff(env, rejects, files, patterns, owner, statics, p);
    hide IndexOk, StemKey, Key, Ext, GetPattern, IsOriginal, PatternsOf, HasSuffix, Admissible, StaticBuildable;
    assert OwnerKey(statics, p) == if StemKey(p) in files then StemKey(p) else Key(p);
    assert TakesAll(rejects, patterns, []);
  }

  lemma TemplateStep(env: Env, rejects: Router, ext: string, files: Files, patterns: set<string>, owner: map<string, string>,
                     parse: TemplateParser, statics: set<string>, p: string)
    requires HasSuffix(p, ext)
    ensures Visitable(env, rejects, ext, files, patterns, p, parse(p))
       <==> FileBuildable(env, ext, statics, parse, p) && TakesAll(rejects, patterns, FilePatterns(ext, statics, parse, p))
    ensures VisitPatterns(ext, files, p, parse(p)) == FilePatterns(ext, statics, parse, p)
    ensures VisitOwner(ext, files, owner, p) == owner
  {
    hide PatternsOf, TakesAll, AllAddable, HasSuffix;
  }

  lemma WalkStep(env: Env, rejects: Router, ext: string, files: Files, patterns: set<string>, owner: map<string, string>,
                 parse: TemplateParser, paths: seq<string>, n: nat)
    requires IndexOk(env, files, patterns, owner) && n < |paths| && WalkOrder(paths)
    requires owner.Keys == StaticPaths(paths[..n], ext) && OwnersOk(StaticPaths(paths, ext), owner)
    ensures var statics, p := StaticPaths(paths, ext), paths[n];
            && (Visitable(env, rejects, ext, files, patterns, p, parse(p))
                <==> FileBuildable(env, ext, statics, parse, p) && TakesAll(rejects, patterns, FilePatterns(ext, statics, parse, p)))
            && VisitPatterns(ext, files, p, parse(p)) == FilePatterns(ext, statics, parse, p)
            && OwnersOk(statics, VisitOwner(ext, files, owner, p))
  {
    WalkVisits(paths, n, ext);
    StemVisited(paths, n, ext);
    hide IndexOk, OwnersOk, WalkOrder, HasSuffix, StaticPaths, Visitable, FileBuildable, TakesAll, FilePatterns, VisitPatterns, VisitOwner,
      Ext, VisitedInOrder, ValidPath;
    if HasSuffix(paths[n], ext) {
      TemplateStep(env, rejects, ext, files, patterns, owner, parse, StaticPaths(paths, ext), paths[n]);
    } else {
      StaticStep(env, rejects, ext, files, patterns, owner, parse, StaticPaths(paths, ext), paths[n]);
    }
  }

  /** Where a build that has not failed stands after n files. */
  ghost predicate Progress(env: Env, rejects: Router, ext: string, parse: TemplateParser, registered: set<string>, paths: seq<string>,
                           n: nat, patterns: set<string>, owner: map<string, string>)
    requires n <= |paths|
  {
    var statics := StaticPaths(paths, ext);
    && owner.Keys == StaticPaths(paths[..n], ext) && OwnersOk(statics, owner)
    && patterns == registered + Elems(WalkPatterns(ext, statics, parse, paths[..n]))
    && BuildableWith(env, rejects, ext, statics, parse, registered, paths[..n])
  }

  lemma ProgressStarts(env: Env, rejects: Router, ext: string, parse: TemplateParser, registered: set<string>, paths: seq<string>)
    ensures Progress(env, rejects, ext, parse, registered, paths, 0, registered, map[])
  {
  }

  lemma ProgressEnds(env: Env, rejects: Router, ext: string, parse: TemplateParser, registered: set<string>, paths: seq<string>,
                     patterns: set<string>, owner: map<string, string>)
    requires Progress(env, rejects, ext, parse, registered, paths, |paths|, patterns, owner)
    ensures Buildable(env, rejects, ext, parse, registered, paths)
    ensures owner.Keys == StaticPaths(paths, ext) && OwnersOk(owner.Keys, owner)
    ensures patterns == registered + Elems(WalkPatterns(ext, owner.Keys, parse, paths))
  {
    hide StaticPaths, OwnersOk, Elems, WalkPatterns, BuildableWith;
    assert paths[..|paths|] == paths;
  }

  lemma ProgressStep(env: Env, rejects: Router, ext: string, parse: TemplateParser, registered: set<string>, paths: seq<string>,
                     n: nat, files: Files, patterns: set<string>, owner: map<string, string>)
    requires n < |paths| && WalkOrder(paths) && IndexOk(env, files, patterns, owner)
    requires Progress(env, rejects, ext, parse, registered, paths, n, patterns, owner)
    ensures ValidPath(paths[n]) && VisitedInOrder(owner.Keys, paths[n])
    ensures |VisitOwner(ext, files, owner, paths[n])| == |owner| + if HasSuffix(paths[n], ext) then 0 else 1
    ensures Visitable(env, rejects, ext, files, patterns, paths[n], parse(paths[n])) ==>
              Progress(env, rejects, ext, parse, registered, paths, n + 1,
                       patterns + Elems(VisitPatterns(ext, files, paths[n], parse(paths[n]))), VisitOwner(ext, files, owner, paths[n]))
    ensures !Visitable(env, rejects, ext, files, patterns, paths[n], parse(paths[n])) ==>
              !Buildable(env, rejects, ext, parse, registered, paths)
  {
    hide IndexOk, OwnersOk, WalkOrder, HasSuffix, StaticPaths, Visitable, FileBuildable, TakesAll, FilePatterns, VisitPatterns,
      VisitedInOrder, ValidPath, BuildableWith, Elems, WalkPatterns, StemKey, Key, VisitOwner, Ext;
    var statics := StaticPaths(paths, ext);
    WalkVisits(paths, n, ext);
    VisitOwnerKeys(ext, files, owner, paths[n]);
    WalkStep(env, rejects, ext, files, patterns, owner, parse, paths, n);
    BuildableSnoc(env, rejects, ext, statics, parse, registered, paths, n);
    SetAssoc(registered, Elems(WalkPatterns(ext, statics, parse, paths[..n])), Elems(FilePatterns(ext, statics, parse, paths[n])));
    if Buildable(env, rejects, ext, parse, registered, paths) {
      BuildablePrefix(env, rejects, ext, statics, parse, registered, paths, n + 1);
    }
  }

  lemma SetAssoc(a: set<string>, b: set<string>, c: set<string>)
    ensures a + b + c == a + (b + c)
  {
  }

  lemma VisitOwnerKeys(ext: string, files: Files, owner: map<string, string>, p: string)
    requires p !in owner
    ensures var owner' := VisitOwner(ext, files, owner, p);
            && owner'.Keys == owner.Keys + (if HasSuffix(p, ext) then {} else {p})
            && |owner'| == |owner| + if HasSuffix(p, ext) then 0 else 1
  {
    hide StemKey, Key, HasSuffix;
  }

  lemma StemVisited(paths: seq<string>, n: nat, ext: string)
    requires WalkOrder(paths) && n < |paths|
    ensures StaticPaths(paths[..n], ext) <= StaticPaths(paths, ext)
    ensures Ext(paths[n]) != "" && Stem(paths[n]) in StaticPaths(paths, ext) ==> Stem(paths[n]) in StaticPaths(paths[..n], ext)
  {
    hide Ext, StemKey, ValidPath;
    if Ext(paths[n]) != "" && Stem(paths[n]) in StaticPaths(paths, ext) {
      var j :| 0 <= j < |paths| && paths[j] == Stem(paths[n]);
      assert StemKey(paths[n]) == "/" + paths[j];
      assert paths[..n][j] == paths[j];
    }
  }

  /** The templates of a file can all be added, and the router takes their patterns. */
  predicate TemplatesTaken(rejects: Router, registered: set<string>, defs: seq<TemplateDef>, path: string, ext: string)
    requires path != "" && path[0] == '/'
  {
    AllAddable(defs) && TakesAll(rejects, registered, PatternsOf(defs, path, ext))
  }

  lemma NoTemplates(rejects: Router, registered: set<string>, defs: seq<TemplateDef>, path: string, ext: string)
    requires path != "" && path[0] == '/'
    ensures TemplatesTaken(rejects, registered, defs[..0], path, ext)
    ensures registered == registered + Elems(PatternsOf(defs[..0], path, ext))
  {
  }

  lemma TemplatesTakenSnoc(rejects: Router, registered: set<string>, defs: seq<TemplateDef>, n: nat, path: string, ext: string)
    requires n < |defs| && path != "" && path[0] == '/'
    ensures TemplatesTaken(rejects, registered, defs[..n + 1], path, ext)
       <==> && TemplatesTaken(rejects, registered, defs[..n], path, ext) && defs[n].addable
            && TakesAll(rejects, registered + Elems(PatternsOf(defs[..n], path, ext)), PatternSeq(defs[n], path, ext))
    ensures Elems(PatternsOf(defs[..n + 1], path, ext))
         == Elems(PatternsOf(defs[..n], path, ext)) + Elems(PatternSeq(defs[n], path, ext))
  {
    hide PatternSeq, TakesAll, Elems;
    var upTo := defs[..n + 1];
    assert upTo[..n] == defs[..n] && upTo[n] == defs[n];
    var a, b := PatternsOf(defs[..n], path, ext), PatternSeq(defs[n], path, ext);
    assert PatternsOf(upTo, path, ext) == a + b;
    hide PatternsOf;
    TakesConcat(rejects, registered, a, b);
    ElemsConcat(a, b);
    assert forall i :: 0 <= i < n ==> upTo[i] == defs[..n][i];
  }

  lemma {:induction false} TemplatesTakenPrefix(rejects: Router, registered: set<string>, defs: seq<TemplateDef>, n: nat,
                                                path: string, ext: string)
    requires n <= |defs| && path != "" && path[0] == '/'
    ensures TemplatesTaken(rejects, registered, defs, path, ext) ==> TemplatesTaken(rejects, registered, defs[..n], path, ext)
    decreases |defs| - n
  {
    hide TemplatesTaken;
    if n == |defs| {
      assert defs[..n] == defs;
    } else {
      TemplatesTakenPrefix(rejects, registered, defs, n + 1, path, ext);
      TemplatesTakenSnoc(rejects, registered, defs, n, path, ext);
    }
  }

  lemma WalkVisits(paths: seq<string>, n: nat, ext: string)
    requires WalkOrder(paths) && n < |paths|
    ensures ValidPath(paths[n]) && paths[n] !in StaticPaths(paths[..n], ext)
    ensures VisitedInOrder(StaticPaths(paths[..n], ext), paths[n])
    ensures StaticPaths(paths[..n + 1], ext)
         == StaticPaths(paths[..n], ext) + (if HasSuffix(paths[n], ext) then {} else {paths[n]})
  {
    assert paths[..n + 1] == paths[..n] + [paths[n]];
    forall q | q in paths[..n]
      ensures q != paths[n] && (Ext(q) != "" ==> StemKey(q) != "/" + paths[n])
    {
      var i :| 0 <= i < n && paths[i] == q;
    }
  }

  // ----- Stopping early -----

  /** Whether a file is its own original is decided by the files before it. */
  lemma {:induction false} OriginalByPrefix(paths: seq<string>, n: nat, ext: string, p: string)
    requires WalkOrder(paths) && n <= |paths| && p in StaticPaths(paths[..n], ext)
    ensures IsOriginal(StaticPaths(paths[..n], ext), p) == IsOriginal(StaticPaths(paths, ext), p)
    decreases |p|
  {
    hide Ext, WalkOrder;
    if Ext(p) != "" {
      var i :| 0 <= i < n && paths[i] == p;
      StemVisited(paths, i, ext);
      assert forall q :: q in paths[..i] ==> q in paths[..n];
      assert forall q :: q in paths[..n] ==> q in paths;
      if Stem(p) in StaticPaths(paths[..n], ext) {
        OriginalByPrefix(paths, n, ext, Stem(p));
      }
    }
  }

  lemma SameByPrefix(env: Env, ext: string, parse: TemplateParser, paths: seq<string>, n: nat, p: string)
    requires WalkOrder(paths) && n <= |paths| && p in paths[..n]
    ensures FileBuildable(env, ext, StaticPaths(paths[..n], ext), parse, p) == FileBuildable(env, ext, StaticPaths(paths, ext), parse, p)
    ensures FilePatterns(ext, StaticPaths(paths[..n], ext), parse, p) == FilePatterns(ext, StaticPaths(paths, ext), parse, p)
  {
    hide Ext, WalkOrder, IsOriginal, ContentType, Compressed, Decodes, PatternsOf, Key;
    if !HasSuffix(p, ext) {
      OriginalByPrefix(paths, n, ext, p);
    }
  }

  lemma {:induction false} PatternsByPrefix(env: Env, ext: string, parse: TemplateParser, paths: seq<string>, n: nat, k: nat)
    requires WalkOrder(paths) && k <= n <= |paths|
    ensures WalkPatterns(ext, StaticPaths(paths[..n], ext), parse, paths[..k])
         == WalkPatterns(ext, StaticPaths(paths, ext), parse, paths[..k])
  {
    hide WalkOrder, FilePatterns, StaticPaths;
    if k > 0 {
      PatternsByPrefix(env, ext, parse, paths, n, k - 1);
      assert paths[..k][..k - 1] == paths[..k - 1] && paths[..n][k - 1] == paths[k - 1];
      SameByPrefix(env, ext, parse, paths, n, paths[k - 1]);
    }
  }

  /** A directory that can be built can be built as far as the walk has come at any time. */
  lemma BuildableSoFar(env: Env, rejects: Router, ext: string, parse: TemplateParser, registered: set<string>, paths: seq<string>, n: nat)
    requires WalkOrder(paths) && n <= |paths| && Buildable(env, rejects, ext, parse, registered, paths)
    ensures Buildable(env, rejects, ext, parse, registered, paths[..n])
  {
    BuildablePrefix(env, rejects, ext, StaticPaths(paths, ext), parse, registered, paths, n);
    hide WalkOrder, FilePatterns, StaticPaths, FileBuildable, WalkPatterns, TakesAll;
    PatternsByPrefix(env, ext, parse, paths, n, n);
    forall i | 0 <= i < n
      ensures FileBuildable(env, ext, StaticPaths(paths[..n], ext), parse, paths[..n][i])
    {
      SameByPrefix(env, ext, parse, paths, n, paths[..n][i]);
    }
  }
}
