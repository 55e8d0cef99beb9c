/** Building an instance from a directory walk (build.go, instance.go): the index of static
    files with their compressed variants, the registered patterns and the counters.
    Decompression, hashing, content sniffing and the router's own conflict rule are parameters. */
module StaticIndex {
  import opened Negotiation
  import opened Paths
  import opened Text
  import opened Wrappers

  type Bytes = seq<bv8>

  datatype StaticFile = StaticFile(content: Bytes, size: int, modtime: int)

  datatype FileInfo = FileInfo(identityPath: string, hash: string, contentType: string, encodings: seq<EncodingInfo>)

  /** A codec answers None where the library reports an error. */
  datatype Codec = Codec(
    gunzip: Bytes -> Option<Bytes>,
    unzstd: Bytes -> Option<Bytes>,
    unbrotli: Bytes -> Option<Bytes>,
    hash: Bytes -> string,
    sniff: Bytes -> Option<string>)

  /** filepath.Ext: from the last dot of the last element, or nothing. */
  function Ext(p: string): (e: string)
    ensures HasSuffix(p, e) && Free(e, '/')
    ensures e != "" ==> e[0] == '.'
  {
    if p == "" || p[|p| - 1] == '/' then ""
    else if p[|p| - 1] == '.' then "."
    else
      var before := Ext(p[..|p| - 1]);
      if before == "" then "" else before + [p[|p| - 1]]
  }

  /** The encoding a file extension stands for. */
  function EncodingOf(ext: string): string {
    if ext == ".gz" then "gzip" else if ext == ".zst" then "zstd" else if ext == ".br" then "br" else "identity"
  }

  /** The extension of a variant with the given encoding. */
  function SuffixOf(encoding: string): string {
    if encoding == "gzip" then ".gz" else if encoding == "zstd" then ".zst" else if encoding == "br" then ".br" else ""
  }

  function Decode(codec: Codec, encoding: string, content: Bytes): Option<Bytes> {
    if encoding == "gzip" then codec.gunzip(content)
    else if encoding == "zstd" then codec.unzstd(content)
    else if encoding == "br" then codec.unbrotli(content)
    else Some(content)
  }

  function ContentType(codec: Codec, ext: string, content: Bytes): Option<string> {
    if ext == ".css" then Some("text/css; charset=utf-8")
    else if ext == ".js" then Some("text/javascript; charset=utf-8")
    else if ext == ".csv" then Some("text/csv")
    else codec.sniff(content)
  }

  /** A path fs.WalkDir passes for a file. */
  predicate ValidPath(p: string) {
    ValidNames(Split(p, '/'))
  }

  lemma CleanValid(p: string)
    requires ValidPath(p)
    ensures Clean("/" + p) == "/" + p
  {
    SplitParts(p, '/');
    CleanPathOf(Split(p, '/'));
  }

  // ----- Sorting the variants -----

  predicate SortedBySize(s: seq<EncodingInfo>) {
    forall i, j :: 0 <= i < j < |s| ==> s[i].size <= s[j].size
  }

  lemma Inserted(s: seq<EncodingInfo>, k: nat, e: EncodingInfo)
    requires k <= |s| && SortedBySize(s)
    requires k > 0 ==> s[k - 1].size <= e.size
    requires k < |s| ==> e.size <= s[k].size
    ensures SortedBySize(s[..k] + [e] + s[k..])
  {
    var r := s[..k] + [e] + s[k..];
    forall i, j | 0 <= i < j < |r|
      ensures r[i].size <= r[j].size
    {
      assert r[i] == if i < k then s[i] else if i == k then e else s[i - 1];
      assert r[j] == if j < k then s[j] else if j == k then e else s[j - 1];
    }
  }

  lemma InsertedElements(s: seq<EncodingInfo>, k: nat, e: EncodingInfo)
    requires k <= |s|
    ensures multiset(s[..k] + [e] + s[k..]) == multiset(s) + multiset{e}
  {
    assert s == s[..k] + s[k..];
  }

  /** sort.Slice, of which only this much is used: it is not stable. */
  method SortBySize(s: seq<EncodingInfo>) returns (r: seq<EncodingInfo>)
    ensures SortedBySize(r) && multiset(r) == multiset(s)
  {
    r := [];
    assert SortedBySize(r);
    hide SortedBySize;
    for i := 0 to |s|
      invariant SortedBySize(r) && multiset(r) == multiset(s[..i])
    {
      assert s[..i + 1] == s[..i] + [s[i]];
      r := InsertBySize(r, s[i]);
    }
    assert s[..|s|] == s;
  }

  method InsertBySize(s: seq<EncodingInfo>, e: EncodingInfo) returns (r: seq<EncodingInfo>)
    requires SortedBySize(s)
    ensures SortedBySize(r) && multiset(r) == multiset(s) + multiset{e}
  {
    var k := |s|;
    while k > 0 && s[k - 1].size > e.size
      invariant 0 <= k <= |s|
      invariant k < |s| ==> e.size <= s[k].size
    {
      k := k - 1;
    }
    Inserted(s, k, e);
    InsertedElements(s, k, e);
    hide SortedBySize;
    r := s[..k] + [e] + s[k..];
  }

  lemma {:induction false} DistinctCount(s: seq<EncodingInfo>, e: EncodingInfo)
    requires DistinctNames(s)
    ensures multiset(s)[e] <= 1
  {
    if s != [] {
      DistinctCount(s[1..], e);
      assert s == [s[0]] + s[1..];
      assert forall i :: 0 <= i < |s[1..]| ==> s[1..][i] == s[i + 1];
    }
  }

  lemma TwiceCounted(s: seq<EncodingInfo>, i: nat, j: nat)
    requires i < j < |s|
    ensures s[i] == s[j] ==> multiset(s)[s[i]] >= 2
  {
    assert s == s[..i] + [s[i]] + s[i + 1..j] + [s[j]] + s[j + 1..];
  }

  /** Reordering keeps the elements, and keeps names distinct. */
  lemma SameElements(s: seq<EncodingInfo>, r: seq<EncodingInfo>)
    requires multiset(r) == multiset(s)
    ensures |r| == |s| && forall e :: e in r <==> e in s
    ensures DistinctNames(s) ==> DistinctNames(r)
  {
    assert |multiset(r)| == |multiset(s)|;
    forall e
      ensures e in r <==> e in s
    {
      assert e in r <==> e in multiset(r);
      assert e in s <==> e in multiset(s);
    }
    if DistinctNames(s) {
      forall i, j | 0 <= i < j < |r|
        ensures r[i].encoding != r[j].encoding
      {
        DistinctCount(s, r[i]);
        TwiceCounted(r, i, j);
        assert r[i] in s && r[j] in s;
      }
    }
  }

  // ----- The index -----

  /** The files on disk, and the libraries that read them. */
  datatype Env = Env(disk: map<string, StaticFile>, codec: Codec)

  const ENCODINGS := {"identity", "gzip", "zstd", "br"}

  /** A variant sits beside its original, and decodes to content with the recorded hash. */
  ghost predicate EncodingOk(env: Env, k: string, hash: string, e: EncodingInfo) {
    && e.path in env.disk && e.size == env.disk[e.path].size && e.modtime == env.disk[e.path].modtime
    && e.encoding in ENCODINGS && "/" + e.path == k + SuffixOf(e.encoding)
    && Decode(env.codec, e.encoding, env.disk[e.path].content).Some?
    && env.codec.hash(Decode(env.codec, e.encoding, env.disk[e.path].content).value) == hash
  }

  ghost predicate FileOk(env: Env, k: string, fi: FileInfo) {
    && fi.identityPath == k && k != "" && k[1..] in env.disk
    && ContentType(env.codec, Ext(k[1..]), env.disk[k[1..]].content) == Some(fi.contentType)
    && SortedBySize(fi.encodings) && DistinctNames(fi.encodings)
    && Find(fi.encodings, "identity") != -1
    && forall i :: 0 <= i < |fi.encodings| ==> EncodingOk(env, k, fi.hash, fi.encodings[i])
  }

  /** The files a key is served from. */
  function Variants(fi: FileInfo): set<string> {
    set i | 0 <= i < |fi.encodings| :: fi.encodings[i].path
  }

  /** The URL path of a visited file. */
  function Key(path: string): string {
    "/" + path
  }

  function GetPattern(k: string): string {
    "GET " + k
  }

  /** The URL path of the file a compressed sibling would belong to. */
  function StemKey(p: string): string {
    TrimSuffix("/" + p, Ext(p))
  }

  predicate Compressed(p: string) {
    EncodingOf(Ext(p)) != "identity"
  }

  type Files = map<string, FileInfo>

  ghost predicate FilesOk(env: Env, files: Files) {
    forall k :: k in files ==> FileOk(env, k, files[k])
  }

  ghost predicate Served(files: Files, patterns: set<string>) {
    forall k :: k in files ==> GetPattern(k) in patterns
  }

  /** Every visited file is a variant of exactly one key, its owner. */
  ghost predicate Owned(files: Files, owner: map<string, string>) {
    && (forall p :: p in owner ==> owner[p] in files && p in Variants(files[owner[p]]))
    && (forall k, p :: k in files && p in Variants(files[k]) ==> p in owner && owner[p] == k)
  }

  /** A file beside an original whose name it extends is one of its compressed variants: no
      compressed file is on its own then, and no other extension gets through at all. */
  ghost predicate SiblingsAttached(files: Files, owner: map<string, string>) {
    forall p :: p in owner && Ext(p) != "" && StemKey(p) in files ==> Compressed(p) && owner[p] == StemKey(p)
  }

  ghost predicate IndexOk(env: Env, files: Files, patterns: set<string>, owner: map<string, string>) {
    FilesOk(env, files) && Served(files, patterns) && Owned(files, owner) && SiblingsAttached(files, owner)
  }

  /** fs.WalkDir visits a directory in lexical order: a name comes before its extensions. */
  ghost predicate VisitedInOrder(visited: set<string>, p: string) {
    p !in visited && forall q :: q in visited && Ext(q) != "" ==> StemKey(q) != "/" + p
  }

  lemma OwnedAdded(files: Files, owner: map<string, string>, k: string, path: string, fi: FileInfo)
    requires Owned(files, owner) && path !in owner
    requires Variants(fi) == (if k in files then Variants(files[k]) else {}) + {path}
    ensures Owned(files[k := fi], owner[path := k])
  {
    var files', owner' := files[k := fi], owner[path := k];
    forall p | p in owner'
      ensures owner'[p] in files' && p in Variants(files'[owner'[p]])
    {
      if p != path {
        assert owner[p] in files && p in Variants(files[owner[p]]);
      }
    }
    forall k', p | k' in files' && p in Variants(files'[k'])
      ensures p in owner' && owner'[p] == k'
    {
      if k' in files && p in Variants(files[k']) {
        assert p in owner && owner[p] == k';
      }
    }
  }

  lemma IdentityAdded(env: Env, files: Files, patterns: set<string>, owner: map<string, string>, path: string, fi: FileInfo)
    requires IndexOk(env, files, patterns, owner) && VisitedInOrder(owner.Keys, path)
    requires Key(path) !in files && StemKey(path) !in files
    requires FileOk(env, Key(path), fi) && Variants(fi) == {path}
    ensures IndexOk(env, files[Key(path) := fi], patterns + {GetPattern(Key(path))}, owner[path := Key(path)])
  {
    hide FileOk, Variants, Owned, VisitedInOrder, SiblingsAttached, StemKey;
    var k := Key(path);
    assert path !in owner by { NotVisited(owner.Keys, path); }
    OwnedAdded(files, owner, k, path, fi);
    SiblingsAdded(files, owner, k, path, fi);
  }

  lemma NotVisited(visited: set<string>, path: string)
    requires VisitedInOrder(visited, path)
    ensures path !in visited
  {
  }

  lemma SiblingsAdded(files: Files, owner: map<string, string>, k: string, path: string, fi: FileInfo)
    requires SiblingsAttached(files, owner) && VisitedInOrder(owner.Keys, path)
    requires k == Key(path) && StemKey(path) !in files
    ensures SiblingsAttached(files[k := fi], owner[path := k])
  {
    StemExt(path);
    hide Ext, StemKey, Compressed;
    assert Ext(path) != "" ==> |StemKey(path)| < |k|;
  }

  lemma VariantAdded(env: Env, files: Files, patterns: set<string>, owner: map<string, string>, path: string, fi: FileInfo)
    requires IndexOk(env, files, patterns, owner) && VisitedInOrder(owner.Keys, path)
    requires StemKey(path) in files && Compressed(path) && FileOk(env, StemKey(path), fi)
    requires Variants(fi) == Variants(files[StemKey(path)]) + {path}
    ensures IndexOk(env, files[StemKey(path) := fi], patterns, owner[path := StemKey(path)])
  {
    hide FileOk, Variants, Owned, Ext, StemKey;
    OwnedAdded(files, owner, StemKey(path), path, fi);
  }

  lemma StemExt(p: string)
    ensures StemKey(p) + Ext(p) == "/" + p
    ensures Compressed(p) ==> SuffixOf(EncodingOf(Ext(p))) == Ext(p) && EncodingOf(Ext(p)) in ENCODINGS
  {
    hide Ext;
    var q, e := "/" + p, Ext(p);
    assert q[|q| - |e|..] == p[|p| - |e|..] == e;
  }

  function IdentityInfo(path: string, f: StaticFile, hash: string, contentType: string): (fi: FileInfo)
    ensures |fi.encodings| == 1
  {
    FileInfo(Key(path), hash, contentType, [EncodingInfo("identity", path, f.size, f.modtime)])
  }

  lemma IdentityOk(env: Env, path: string, contentType: string)
    requires path in env.disk && ContentType(env.codec, Ext(path), env.disk[path].content) == Some(contentType)
    ensures var f := env.disk[path];
            var fi := IdentityInfo(path, f, env.codec.hash(f.content), contentType);
            FileOk(env, Key(path), fi) && Variants(fi) == {path}
  {
    hide Ext, ContentType;
    var f := env.disk[path];
    var fi := IdentityInfo(path, f, env.codec.hash(f.content), contentType);
    assert "/" + path + "" == "/" + path && ("/" + path)[1..] == path;
    assert EncodingOk(env, Key(path), fi.hash, fi.encodings[0]);
  }

  /** A variant is determined by its name, so a file not seen before brings a new name. */
  lemma NameIsNew(env: Env, k: string, fi: FileInfo, e: EncodingInfo)
    requires FileOk(env, k, fi) && EncodingOk(env, k, fi.hash, e) && e.path !in Variants(fi)
    ensures DistinctNames(fi.encodings + [e])
  {
    forall i | 0 <= i < |fi.encodings|
      ensures fi.encodings[i].encoding != e.encoding
    {
      assert EncodingOk(env, k, fi.hash, fi.encodings[i]);
      assert fi.encodings[i].path in Variants(fi);
      assert ("/" + e.path)[1..] == e.path && ("/" + fi.encodings[i].path)[1..] == fi.encodings[i].path;
    }
  }

  lemma VariantOk(env: Env, k: string, fi: FileInfo, e: EncodingInfo, sorted: seq<EncodingInfo>)
    requires FileOk(env, k, fi) && EncodingOk(env, k, fi.hash, e) && e.path !in Variants(fi)
    requires SortedBySize(sorted) && multiset(sorted) == multiset(fi.encodings + [e])
    ensures FileOk(env, k, fi.(encodings := sorted))
    ensures Variants(fi.(encodings := sorted)) == Variants(fi) + {e.path}
    ensures |sorted| == |fi.encodings| + 1
  {
    var all := fi.encodings + [e];
    NameIsNew(env, k, fi, e);
    SameElements(all, sorted);
    forall i | 0 <= i < |sorted|
      ensures EncodingOk(env, k, fi.hash, sorted[i])
    {
      assert sorted[i] in all;
    }
    var id := fi.encodings[Find(fi.encodings, "identity")];
    assert id in all && id in sorted;
    VariantsMember(fi.(encodings := sorted), all);
    VariantsMember(fi.(encodings := all), all);
    assert forall x :: x in Variants(fi.(encodings := all)) <==> x in Variants(fi) || x == e.path by {
      VariantsSnoc(fi, e);
    }
  }

  lemma VariantsMember(fi: FileInfo, all: seq<EncodingInfo>)
    requires forall e :: e in fi.encodings <==> e in all
    ensures Variants(fi) == set e | e in all :: e.path
  {
    forall p | p in Variants(fi)
      ensures p in (set e | e in all :: e.path)
    {
      var i :| 0 <= i < |fi.encodings| && fi.encodings[i].path == p;
      assert fi.encodings[i] in all;
    }
    forall p | p in (set e | e in all :: e.path)
      ensures p in Variants(fi)
    {
      var e :| e in all && e.path == p;
      assert e in fi.encodings;
    }
  }

  lemma VariantsSnoc(fi: FileInfo, e: EncodingInfo)
    ensures Variants(fi.(encodings := fi.encodings + [e])) == Variants(fi) + {e.path}
  {
    var all := fi.encodings + [e];
    assert all[|fi.encodings|] == e;
    assert forall i :: 0 <= i < |fi.encodings| ==> all[i] == fi.encodings[i];
  }

  // ----- The counters -----

  predicate Lists(keys: seq<string>, files: Files) {
    && (forall i :: 0 <= i < |keys| ==> keys[i] in files)
    && (forall i, j :: 0 <= i < j < |keys| ==> keys[i] != keys[j])
    && |keys| == |files|
  }

  /** The variants beyond the original, over the given keys. */
  function Alternates(files: Files, keys: seq<string>): int
    requires forall i :: 0 <= i < |keys| ==> keys[i] in files
  {
    if keys == [] then 0
    else Alternates(files, keys[..|keys| - 1]) + |files[keys[|keys| - 1]].encodings| - 1
  }

  lemma {:induction false} AlternatesUpdated(files: Files, keys: seq<string>, k: string, fi: FileInfo)
    requires forall i :: 0 <= i < |keys| ==> keys[i] in files
    requires forall i, j :: 0 <= i < j < |keys| ==> keys[i] != keys[j]
    ensures Alternates(files[k := fi], keys)
         == Alternates(files, keys) + if k in keys then |fi.encodings| - |files[k].encodings| else 0
  {
    if keys != [] {
      var n := |keys| - 1;
      AlternatesUpdated(files, keys[..n], k, fi);
      assert k in keys <==> k in keys[..n] || k == keys[n];
    }
  }

  lemma AlternatesAdded(files: Files, keys: seq<string>, k: string, fi: FileInfo)
    requires Lists(keys, files) && k !in files && |fi.encodings| == 1
    ensures Lists(keys + [k], files[k := fi])
    ensures Alternates(files[k := fi], keys + [k]) == Alternates(files, keys)
  {
    AlternatesUpdated(files, keys, k, fi);
    assert (keys + [k])[..|keys|] == keys;
  }

  lemma {:induction false} AllListed(keys: seq<string>, domain: set<string>, k: string)
    requires |keys| == |domain| && k in domain
    requires forall i :: 0 <= i < |keys| ==> keys[i] in domain
    requires forall i, j :: 0 <= i < j < |keys| ==> keys[i] != keys[j]
    ensures k in keys
  {
    var n := |keys| - 1;
    if keys[n] != k {
      AllListed(keys[..n], domain - {keys[n]}, k);
    }
  }
}
