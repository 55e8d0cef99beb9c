/** Serving a static file from the index (handlers.go, dot_instance.go), and what the whole
    path from directory tree to response guarantees. */
module AssetServing {
  import opened BuildLaws
  import opened BuildRules
  import opened DirectoryWalk
  import opened InstanceBuild
  import opened Negotiation
  import opened NegotiationLaws
  import opened NegotiationOrder
  import opened Paths
  import opened StaticIndex
  import opened Text
  import opened Wrappers

  datatype Response =
    | NotFound
    | ServerError
    | Content(variant: EncodingInfo, etag: string, contentType: string, immutable: bool)

  /** Config.Instance, as far as files go, on a directory tree. */
  method BuildFromTree(env: Env, rejects: Router, extension: string, nodes: seq<Node>, parse: TemplateParser)
    returns (b: Builder, ok: bool)
    requires WellFormed(nodes)
    ensures ok <==> Buildable(env, rejects, extension, parse, {}, WalkPaths(nodes))
    ensures ok ==> b.Valid() && b.env == env && b.extension == extension
    ensures ok ==> b.owner.Keys == StaticPaths(WalkPaths(nodes), extension) && OwnersOk(b.owner.Keys, b.owner)
    ensures ok ==> b.patterns == Elems(WalkPatterns(extension, b.owner.Keys, parse, WalkPaths(nodes)))
  {
    hide IndexOk, Counted, StaticPaths, WalkPaths, Buildable, OwnersOk, Elems, WalkPatterns, WalkOrder;
    b := new Builder(env, rejects, extension);
    TreeWalkOrder(nodes);
    ok := b.Walk(WalkPaths(nodes), parse);
  }

  /** No tree can be built that holds, in one directory, a static original and a static file that
      adds to its name an extension other than a compression: LICENSE and LICENSE.txt, app.js and
      app.js.map. */
  lemma NameAndExtensionAbort(env: Env, rejects: Router, ext: string, parse: TemplateParser, nodes: seq<Node>,
                              dir: seq<string>, name: string, x: string)
    requires WellFormed(nodes) && HasFile(nodes, dir + [name]) && HasFile(nodes, dir + [name + x])
    requires Extension(x) && EncodingOf(x) == "identity"
    requires var p := Join(dir + [name], '/');
             && !HasSuffix(p, ext) && !HasSuffix(p + x, ext)
             && IsOriginal(StaticPaths(WalkPaths(nodes), ext), p)
    ensures !Buildable(env, rejects, ext, parse, {}, WalkPaths(nodes))
  {
    hide Buildable, Ext, HasSuffix, WalkPaths, HasFile, Extension, IsOriginal, StaticPaths;
    WalkFinds(nodes, dir + [name]);
    WalkFinds(nodes, dir + [name + x]);
    ExtendLast(dir, name, x);
    var p, q := Join(dir + [name], '/'), Join(dir + [name + x], '/');
    assert ("/" + p + x)[1..] == p + x && ("/" + q)[1..] == q;
    PlainExtensionAborts(env, rejects, ext, parse, {}, WalkPaths(nodes), p, x);
  }

  /** DotX.StaticFileHash */
  function StaticFileHash(files: Files, urlpath: string): Option<string> {
    var p := Clean("/" + urlpath);
    if p in files then Some(files[p].hash) else None
  }

  /** The path of a request cleans to the given key; one without a leading slash never does. */
  predicate CleansTo(urlPath: string, k: string) {
    urlPath != "" && urlPath[0] == '/' && Clean(urlPath) == k
  }

  /** What the handler of an indexed file answers. */
  predicate HandledStatic(fi: FileInfo, urlPath: string, queryHash: string, acceptHeaders: seq<string>, parse: WeightParser,
                          opens: bool, r: Response) {
    && (!CleansTo(urlPath, fi.identityPath) || (queryHash != "" && queryHash != fi.hash) <==> r == NotFound)
    && (r.Content? ==>
          && fi.encodings != []
          && r.variant == fi.encodings[Chosen(fi, acceptHeaders, parse)]
          && r.etag == "\"" + fi.hash + "\"" && r.contentType == fi.contentType
          && (r.immutable <==> queryHash == fi.hash && queryHash != ""))
    && (r == ServerError <==> r != NotFound && (fi.encodings == [] || !opens))
  }

  /** staticFileHandler up to the point where the content is sent.  `opens` says whether the
      file system still opens the file. */
  method HandleStatic(fi: FileInfo, urlPath: string, queryHash: string, acceptHeaders: seq<string>, parse: WeightParser, opens: bool)
    returns (r: Response)
    ensures HandledStatic(fi, urlPath, queryHash, acceptHeaders, parse, opens, r)
  {
    if !CleansTo(urlPath, fi.identityPath) {
      return NotFound;
    }
    if queryHash != "" && queryHash != fi.hash {
      return NotFound;
    }
    hide Clean;
    var choice, err := Negotiate(acceptHeaders, fi.encodings, parse);
    if choice.None? {
      return ServerError;
    }
    WinnerInRange(acceptHeaders, fi.encodings, parse);
    if !opens {
      return ServerError;
    }
    r := Content(fi.encodings[choice.value], "\"" + fi.hash + "\"", fi.contentType, queryHash != "");
  }

  function Chosen(fi: FileInfo, acceptHeaders: seq<string>, parse: WeightParser): (i: nat)
    requires fi.encodings != []
    ensures i < |fi.encodings|
  {
    WinnerInRange(acceptHeaders, fi.encodings, parse);
    Winner(acceptHeaders, fi.encodings, parse).idx
  }

  /** For every key of the index of a directory tree and every Accept-Encoding, negotiation
      succeeds without an error; the variant chosen is the original or one the client listed;
      and what it decodes to has the hash that is sent as Etag and that StaticFileHash reports. */
  lemma ServedContentMatchesHash(env: Env, files: Files, patterns: set<string>, owner: map<string, string>,
                                 nodes: seq<Node>, ext: string, k: string, acceptHeaders: seq<string>, parse: WeightParser)
    requires WellFormed(nodes) && IndexOk(env, files, patterns, owner) && k in files
    requires owner.Keys == StaticPaths(WalkPaths(nodes), ext)
    ensures files[k].encodings != [] && Find(files[k].encodings, "identity") != -1
    ensures var fi := files[k];
            var e := fi.encodings[Chosen(fi, acceptHeaders, parse)];
            && (e.encoding == "identity" ||
                exists x :: x in Accepted(acceptHeaders, fi.encodings, parse) && x.idx == Chosen(fi, acceptHeaders, parse))
            && e.path in env.disk
            && Decode(env.codec, e.encoding, env.disk[e.path].content).Some?
            && env.codec.hash(Decode(env.codec, e.encoding, env.disk[e.path].content).value) == fi.hash
            && StaticFileHash(files, k[1..]) == Some(fi.hash)
  {
    var fi := files[k];
    assert FileOk(env, k, fi);
    var i := Chosen(fi, acceptHeaders, parse);
    assert EncodingOk(env, k, fi.hash, fi.encodings[i]);
    FoldMember(Default(fi.encodings), Accepted(acceptHeaders, fi.encodings, parse));
    TreePathsValid(nodes, ext, owner);
    KeyIsClean(env, files, patterns, owner, k);
  }

  lemma TreePathsValid(nodes: seq<Node>, ext: string, owner: map<string, string>)
    requires WellFormed(nodes) && owner.Keys == StaticPaths(WalkPaths(nodes), ext)
    ensures forall p :: p in owner ==> ValidPath(p)
  {
    TreeWalkOrder(nodes);
  }

  lemma KeyIsClean(env: Env, files: Files, patterns: set<string>, owner: map<string, string>, k: string)
    requires IndexOk(env, files, patterns, owner) && k in files
    requires forall p :: p in owner ==> ValidPath(p)
    ensures k != "" && "/" + k[1..] == k && Clean(k) == k
  {
    hide Clean, ValidPath, Ext, ContentType, Decode, SiblingsAttached, Served;
    var fi := files[k];
    assert FileOk(env, k, fi);
    var id := fi.encodings[Find(fi.encodings, "identity")];
    assert EncodingOk(env, k, fi.hash, id);
    assert k + "" == k && "/" + id.path == k && k[1..] == id.path;
    assert id.path in Variants(fi);
    CleanValid(id.path);
  }

  // ----- From directory tree to response -----

  /** The variants of an original: itself and its compressed siblings, smallest first. */
  ghost predicate VariantList(env: Env, statics: set<string>, p: string, list: seq<EncodingInfo>) {
    && SortedBySize(list) && DistinctNames(list)
    && (forall i :: 0 <= i < |list| ==>
          list[i].path in statics && OwnerKey(statics, list[i].path) == Key(p) && VariantOf(env, p, list[i]))
    && (forall q :: q in statics && OwnerKey(statics, q) == Key(p) ==> exists i :: 0 <= i < |list| && list[i].path == q)
  }

  /** A file with the name of its encoding, its size and its time. */
  predicate VariantOf(env: Env, p: string, e: EncodingInfo) {
    && e.encoding in ENCODINGS && e.path == p + SuffixOf(e.encoding)
    && e.path in env.disk && e.size == env.disk[e.path].size && e.modtime == env.disk[e.path].modtime
  }

  /** The variant negotiated for this header. */
  ghost predicate Negotiated(env: Env, statics: set<string>, p: string, acceptHeaders: seq<string>, parse: WeightParser, e: EncodingInfo) {
    exists list :: Negotiates(env, statics, p, acceptHeaders, parse, e, list)
  }

  ghost predicate Negotiates(env: Env, statics: set<string>, p: string, acceptHeaders: seq<string>, parse: WeightParser,
                             e: EncodingInfo, list: seq<EncodingInfo>) {
    && VariantList(env, statics, p, list) && list != []
    && var i := Winner(acceptHeaders, list, parse).idx;
       0 <= i < |list| && e == list[i]
  }

  /** The response to a request for a file that is its own original. */
  ghost predicate ServedFrom(env: Env, statics: set<string>, p: string, queryHash: string, acceptHeaders: seq<string>,
                             parse: WeightParser, opens: bool, r: Response) {
    && p in env.disk
    && var hash := env.codec.hash(env.disk[p].content);
       && (r == NotFound <==> queryHash != "" && queryHash != hash)
       && (r == ServerError <==> r != NotFound && !opens)
       && (r.Content? ==>
             && r.etag == "\"" + hash + "\"" && ContentType(env.codec, Ext(p), env.disk[p].content) == Some(r.contentType)
             && (r.immutable <==> queryHash != "")
             && r.variant.path in statics && OwnerKey(statics, r.variant.path) == Key(p)
             && Negotiated(env, statics, p, acceptHeaders, parse, r.variant)
             && (r.variant.encoding == "identity" || Named(acceptHeaders, r.variant.encoding))
             && DecodesTo(env, r.variant, hash))
  }

  /** The file of this variant decodes to content with this hash. */
  predicate DecodesTo(env: Env, e: EncodingInfo, hash: string) {
    && e.path in env.disk
    && var content := Decode(env.codec, e.encoding, env.disk[e.path].content);
       content.Some? && env.codec.hash(content.value) == hash
  }

  lemma VariantIndexed(env: Env, files: Files, patterns: set<string>, owner: map<string, string>, k: string, i: nat)
    requires IndexOk(env, files, patterns, owner) && k in files && i < |files[k].encodings|
    ensures var e := files[k].encodings[i];
            e.path in owner && owner[e.path] == k && DecodesTo(env, e, files[k].hash)
  {
    var fi := files[k];
    assert FileOk(env, k, fi);
    hide Ext, ContentType, SortedBySize, SiblingsAttached, Served, Decode;
    assert EncodingOk(env, k, fi.hash, fi.encodings[i]);
    assert fi.encodings[i].path in Variants(fi);
  }

  lemma VariantSuffix(env: Env, p: string, fi: FileInfo, i: nat)
    requires FileOk(env, Key(p), fi) && i < |fi.encodings|
    ensures VariantOf(env, p, fi.encodings[i])
  {
    var e := fi.encodings[i];
    assert EncodingOk(env, Key(p), fi.hash, e);
    hide FileOk, Decode, SuffixOf;
    assert ("/" + e.path)[1..] == e.path;
    assert ("/" + p + SuffixOf(e.encoding))[1..] == p + SuffixOf(e.encoding);
  }

  /** A variant goes by the name gzip, zstd or br exactly when its file adds .gz, .zst or .br to
      the name of the original, and by identity exactly when it is the original. */
  lemma VariantName(env: Env, p: string, e: EncodingInfo)
    requires VariantOf(env, p, e)
    ensures e.encoding == "gzip" <==> e.path == p + ".gz"
    ensures e.encoding == "zstd" <==> e.path == p + ".zst"
    ensures e.encoding == "br" <==> e.path == p + ".br"
    ensures e.encoding == "identity" <==> e.path == p
  {
    var x := SuffixOf(e.encoding);
    assert e.encoding == "gzip" <==> x == ".gz";
    assert e.encoding == "zstd" <==> x == ".zst";
    assert e.encoding == "br" <==> x == ".br";
    assert e.encoding == "identity" <==> x == "";
    hide SuffixOf;
    assert e.path[|p|..] == x && (p + ".gz")[|p|..] == ".gz" && (p + ".zst")[|p|..] == ".zst" && (p + ".br")[|p|..] == ".br";
    assert p + "" == p;
  }

  lemma VariantsOwned(files: Files, owner: map<string, string>, k: string)
    requires Owned(files, owner) && k in files
    ensures forall i :: 0 <= i < |files[k].encodings| ==> files[k].encodings[i].path in owner && owner[files[k].encodings[i].path] == k
    ensures forall q :: q in owner && owner[q] == k ==> exists i :: 0 <= i < |files[k].encodings| && files[k].encodings[i].path == q
  {
    forall i | 0 <= i < |files[k].encodings|
      ensures files[k].encodings[i].path in owner && owner[files[k].encodings[i].path] == k
    {
      assert files[k].encodings[i].path in Variants(files[k]);
    }
    forall q | q in owner && owner[q] == k
      ensures exists i :: 0 <= i < |files[k].encodings| && files[k].encodings[i].path == q
    {
      assert q in Variants(files[k]);
    }
  }

  lemma VariantsListed(env: Env, files: Files, patterns: set<string>, owner: map<string, string>, p: string)
    requires IndexOk(env, files, patterns, owner) && OwnersOk(owner.Keys, owner) && Key(p) in files
    ensures VariantList(env, owner.Keys, p, files[Key(p)].encodings)
  {
    hide OwnerKey, VariantOf, Key, SiblingsAttached, Served, Owned, SortedBySize, DistinctNames, EncodingOk, Ext, ContentType;
    var fi := files[Key(p)];
    assert FileOk(env, Key(p), fi);
    forall i | 0 <= i < |fi.encodings|
      ensures VariantOf(env, p, fi.encodings[i])
    {
      VariantSuffix(env, p, fi, i);
    }
    VariantsOwned(files, owner, Key(p));
  }

  /** A variant other than the original is sent only to a client that names its encoding. */
  lemma ChosenNamed(list: seq<EncodingInfo>, acceptHeaders: seq<string>, parse: WeightParser)
    requires list != [] && DistinctNames(list) && Find(list, "identity") != -1
    ensures var i := Winner(acceptHeaders, list, parse).idx;
            0 <= i < |list| && (list[i].encoding == "identity" || Named(acceptHeaders, list[i].encoding))
  {
    hide DistinctNames, Accepted, Named;
    WinnerInRange(acceptHeaders, list, parse);
    FoldMember(Default(list), Accepted(acceptHeaders, list, parse));
    AcceptedNames(acceptHeaders, list, parse, Winner(acceptHeaders, list, parse).idx);
  }

  lemma NothingAccepted(list: seq<EncodingInfo>, acceptHeaders: seq<string>, parse: WeightParser)
    requires DistinctNames(list) && forall i :: 0 <= i < |list| ==> !Named(acceptHeaders, list[i].encoding)
    ensures Accepted(acceptHeaders, list, parse) == []
  {
    hide DistinctNames, Accepted, Named;
    var entries := Accepted(acceptHeaders, list, parse);
    AcceptedInRange(acceptHeaders, list, parse);
    if entries != [] {
      AcceptedNames(acceptHeaders, list, parse, entries[0].idx);
    }
  }

  lemma ListHasOriginal(env: Env, statics: set<string>, p: string, list: seq<EncodingInfo>)
    requires VariantList(env, statics, p, list) && p in statics && OwnerKey(statics, p) == Key(p)
    ensures exists i :: 0 <= i < |list| && list[i].encoding == "identity"
  {
    hide OwnerKey, Key, SortedBySize, DistinctNames;
    var i :| 0 <= i < |list| && list[i].path == p;
    assert VariantOf(env, p, list[i]);
    assert |list[i].path| == |p| + |SuffixOf(list[i].encoding)|;
  }

  /** A client that names none of the variants gets the original. */
  lemma NothingNamed(env: Env, statics: set<string>, p: string, acceptHeaders: seq<string>, parse: WeightParser,
                     e: EncodingInfo, list: seq<EncodingInfo>)
    requires Negotiates(env, statics, p, acceptHeaders, parse, e, list) && p in statics && OwnerKey(statics, p) == Key(p)
    requires forall i :: 0 <= i < |list| ==> !Named(acceptHeaders, list[i].encoding)
    ensures e.path == p && e.encoding == "identity"
  {
    hide VariantList, Accepted, Named, OwnerKey, Key, Winner;
    ListDistinct(env, statics, p, list);
    ListHasOriginal(env, statics, p, list);
    NothingAccepted(list, acceptHeaders, parse);
    NothingListed(acceptHeaders, list, parse);
    OriginalSuffix(env, statics, p, list, Winner(acceptHeaders, list, parse).idx);
  }

  lemma ListDistinct(env: Env, statics: set<string>, p: string, list: seq<EncodingInfo>)
    requires VariantList(env, statics, p, list)
    ensures DistinctNames(list)
  {
  }

  lemma OriginalSuffix(env: Env, statics: set<string>, p: string, list: seq<EncodingInfo>, i: nat)
    requires VariantList(env, statics, p, list) && i < |list| && list[i].encoding == "identity"
    ensures list[i].path == p
  {
    assert VariantOf(env, p, list[i]);
    assert p + "" == p;
  }

  /** When all weights given to variants exceed 0.1 and lie within 0.1 of each other, no variant
      that the client names is smaller than the one it gets. */
  lemma SmallestServed(env: Env, statics: set<string>, p: string, acceptHeaders: seq<string>, parse: WeightParser,
                       e: EncodingInfo, list: seq<EncodingInfo>, i: nat)
    requires Negotiates(env, statics, p, acceptHeaders, parse, e, list)
    requires var entries := Accepted(acceptHeaders, list, parse);
             && (forall x :: x in entries ==> x.q > SLACK)
             && (forall x, y :: x in entries && y in entries ==> Within(x.q, y.q))
    requires i < |list| && Named(acceptHeaders, list[i].encoding)
    ensures Named(acceptHeaders, e.encoding) && e.size <= list[i].size
  {
    hide Accepted, Named, Winner, OwnerKey, VariantOf;
    AcceptedNames(acceptHeaders, list, parse, i);
    var fi := FileInfo("", "", "", list);
    SmallestListed(fi, acceptHeaders, parse);
    AcceptedNames(acceptHeaders, list, parse, Chosen(fi, acceptHeaders, parse));
  }

  lemma KeyFacts(env: Env, files: Files, patterns: set<string>, owner: map<string, string>, p: string)
    requires IndexOk(env, files, patterns, owner) && Key(p) in files
    ensures var fi := files[Key(p)];
            && fi.identityPath == Key(p) && fi.encodings != [] && p in env.disk && Find(fi.encodings, "identity") != -1
            && fi.hash == env.codec.hash(env.disk[p].content)
            && ContentType(env.codec, Ext(p), env.disk[p].content) == Some(fi.contentType)
  {
    KeyIndexed(env, files, patterns, owner, p);
    var k := Key(p);
    assert FileOk(env, k, files[k]) && k[1..] == p;
  }

  lemma VariantServed(env: Env, files: Files, patterns: set<string>, owner: map<string, string>, p: string,
                      urlPath: string, queryHash: string, acceptHeaders: seq<string>, parse: WeightParser, opens: bool, r: Response)
    requires IndexOk(env, files, patterns, owner) && OwnersOk(owner.Keys, owner) && Key(p) in files && CleansTo(urlPath, Key(p))
    requires HandledStatic(files[Key(p)], urlPath, queryHash, acceptHeaders, parse, opens, r)
    ensures ServedFrom(env, owner.Keys, p, queryHash, acceptHeaders, parse, opens, r)
  {
    hide IndexOk, OwnerKey, Key, Ext, ContentType, CleansTo, DecodesTo, Winner, VariantList, Named;
    KeyFacts(env, files, patterns, owner, p);
    if r.Content? {
      var list := files[Key(p)].encodings;
      VariantIndexed(env, files, patterns, owner, Key(p), Chosen(files[Key(p)], acceptHeaders, parse));
      VariantsListed(env, files, patterns, owner, p);
      ListDistinct(env, owner.Keys, p, list);
      ChosenNamed(list, acceptHeaders, parse);
      assert Chosen(files[Key(p)], acceptHeaders, parse) == Winner(acceptHeaders, list, parse).idx;
      assert Negotiates(env, owner.Keys, p, acceptHeaders, parse, r.variant, list);
    }
  }

  lemma OriginalsAreKeys(env: Env, files: Files, patterns: set<string>, owner: map<string, string>, p: string)
    requires IndexOk(env, files, patterns, owner) && OwnersOk(owner.Keys, owner)
    ensures Key(p) in files <==> p in owner && IsOriginal(owner.Keys, p)
  {
    hide IndexOk;
    KeyIndexed(env, files, patterns, owner, p);
    OwnKey(owner.Keys, p);
  }

  /** StaticFileHash reports, for the URLs of originals and no others, the hash of their content. */
  lemma HashReported(env: Env, files: Files, patterns: set<string>, owner: map<string, string>, urlpath: string)
    requires IndexOk(env, files, patterns, owner) && OwnersOk(owner.Keys, owner)
    ensures match StaticFileHash(files, urlpath)
            case Some(hash) =>
              exists p :: p in owner && IsOriginal(owner.Keys, p) && Clean("/" + urlpath) == Key(p)
                          && p in env.disk && hash == env.codec.hash(env.disk[p].content)
            case None => forall p :: p in owner && IsOriginal(owner.Keys, p) ==> Clean("/" + urlpath) != Key(p)
  {
    hide IndexOk, IsOriginal, Key, Clean, OwnersOk;
    var k := Clean("/" + urlpath);
    if k in files {
      var p := KeyOf(env, files, patterns, owner, k);
      OriginalsAreKeys(env, files, patterns, owner, p);
      KeyFacts(env, files, patterns, owner, p);
    }
    forall p | p in owner && IsOriginal(owner.Keys, p)
      ensures Key(p) in files
    {
      OriginalsAreKeys(env, files, patterns, owner, p);
    }
  }

  /** A directory tree is built exactly when it is buildable; then the URLs of its originals,
      and no others, are answered as static files: the variant negotiated for the header from
      the original and its compressed siblings, under the hash of the original's content. */
  method BuildAndServe(env: Env, rejects: Router, extension: string, nodes: seq<Node>, parseTemplate: TemplateParser,
                       urlPath: string, queryHash: string, acceptHeaders: seq<string>, parse: WeightParser, opens: bool)
    returns (ok: bool, r: Option<Response>)
    requires WellFormed(nodes)
    ensures ok <==> Buildable(env, rejects, extension, parseTemplate, {}, WalkPaths(nodes))
    ensures ok ==>
              var statics := StaticPaths(WalkPaths(nodes), extension);
              if r.Some? then exists p :: p in statics && IsOriginal(statics, p) && CleansTo(urlPath, Key(p))
                                          && ServedFrom(env, statics, p, queryHash, acceptHeaders, parse, opens, r.value)
              else forall p :: p in statics && IsOriginal(statics, p) ==> !CleansTo(urlPath, Key(p))
  {
    hide IndexOk, Counted, StaticPaths, WalkPaths, Buildable, OwnersOk, Elems, WalkPatterns, IsOriginal, Clean, ServedFrom,
      HandledStatic, Routed, Key;
    var b: Builder;
    b, ok := BuildFromTree(env, rejects, extension, nodes, parseTemplate);
    r := None;
    if ok {
      forall p
        ensures Key(p) in b.files <==> p in b.owner && IsOriginal(b.owner.Keys, p)
      {
        OriginalsAreKeys(env, b.files, b.patterns, b.owner, p);
      }
      if urlPath != "" && urlPath[0] == '/' && Clean(urlPath) in b.files {
        var resp := HandleStatic(b.files[Clean(urlPath)], urlPath, queryHash, acceptHeaders, parse, opens);
        r := Some(resp);
        ghost var p := KeyOf(env, b.files, b.patterns, b.owner, Clean(urlPath));
        VariantServed(env, b.files, b.patterns, b.owner, p, urlPath, queryHash, acceptHeaders, parse, opens, resp);
      }
    }
  }

  lemma KeyOf(env: Env, files: Files, patterns: set<string>, owner: map<string, string>, k: string) returns (p: string)
    requires IndexOk(env, files, patterns, owner) && k in files
    ensures k == Key(p)
  {
    assert FileOk(env, k, files[k]);
    var id := files[k].encodings[Find(files[k].encodings, "identity")];
    assert EncodingOk(env, k, files[k].hash, id);
    assert k + "" == k;
    p := id.path;
  }

  /** When all listed weights exceed 0.1 and lie within 0.1 of each other, the client gets the
      smallest of the variants it listed. */
  lemma SmallestListed(fi: FileInfo, acceptHeaders: seq<string>, parse: WeightParser)
    requires fi.encodings != [] && SortedBySize(fi.encodings)
    requires var entries := Accepted(acceptHeaders, fi.encodings, parse);
             && entries != []
             && (forall x :: x in entries ==> x.q > SLACK)
             && (forall x, y :: x in entries && y in entries ==> Within(x.q, y.q))
    ensures var entries, i := Accepted(acceptHeaders, fi.encodings, parse), Chosen(fi, acceptHeaders, parse);
            && (exists x :: x in entries && x.idx == i)
            && forall x :: x in entries ==> 0 <= x.idx < |fi.encodings| && fi.encodings[i].size <= fi.encodings[x.idx].size
  {
    hide Accepted, Fold, Find;
    var entries := Accepted(acceptHeaders, fi.encodings, parse);
    AcceptedInRange(acceptHeaders, fi.encodings, parse);
    CloseWeights(Default(fi.encodings), entries);
  }
}
