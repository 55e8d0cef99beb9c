/** Splitting a document into front matter and body (frontmatter.go).  The YAML, TOML and JSON
    parsers are a parameter. */
module FrontMatter {
  import opened Text
  import opened Wrappers

  datatype Kind = Yaml | Toml | Json

  function Open(kind: Kind): string {
    match kind
    case Yaml => "---"
    case Toml => "+++"
    case Json => "{"
  }

  function Closers(kind: Kind): seq<string> {
    match kind
    case Yaml => ["---", "..."]
    case Toml => ["+++"]
    case Json => ["}"]
  }

  const KINDS := [Yaml, Toml, Json]

  type Parser<!M> = (Kind, string) -> Option<M>

  datatype Extracted<M> =
    | NoMatter(body: string)
    | Matter(meta: M, body: string)
    | Unterminated
    | Unparsable

  // ----- What the split means -----

  /** Position i holds the newline that ends the first line with something on it. */
  predicate EndsOpening(input: string, i: int) {
    0 <= i < |input| && input[i] == '\n' && !AllSpace(input[..i])
  }

  function OpeningEnd(input: string, from: nat := 0): (r: Option<nat>)
    requires from <= |input|
    ensures r.Some? ==> from <= r.value && EndsOpening(input, r.value)
    ensures forall j :: from <= j && (r.Some? ==> j < r.value) ==> !EndsOpening(input, j)
    decreases |input| - from
  {
    if from == |input| then None
    else if EndsOpening(input, from) then Some(from)
    else OpeningEnd(input, from + 1)
  }

  function KindOf(line: string): (r: Option<Kind>)
    ensures r.Some? ==> Open(r.value) == line
    ensures r.None? ==> forall k: Kind :: Open(k) != line
  {
    if line == Open(Yaml) then Some(Yaml)
    else if line == Open(Toml) then Some(Toml)
    else if line == Open(Json) then Some(Json)
    else None
  }

  /** The first closing fence in the list that occurs at the start of a line of the text. */
  function ClosingFence(text: string, fences: seq<string>, from: nat := 0): (r: Option<nat>)
    requires from <= |fences|
    ensures r.Some? ==> from <= r.value < |fences| && Index(text, "\n" + fences[r.value]) >= 0
    ensures forall j :: from <= j < (if r.Some? then r.value else |fences|) ==> Index(text, "\n" + fences[j]) == -1
    decreases |fences| - from
  {
    if from == |fences| then None
    else if Index(text, "\n" + fences[from]) >= 0 then Some(from)
    else ClosingFence(text, fences, from + 1)
  }

  /** The pieces of a document: the opening line and what precedes it, the front matter with
      its surrounding newlines, the closing fence and the body. */
  datatype Pieces = Pieces(opening: string, kind: Kind, raw: string, fence: string, body: string)

  datatype SplitResult = Whole | Dangling | Cut(pieces: Pieces)

  /** The opening line ends at e, and i characters after that a newline precedes the fence. */
  function CutAt(input: string, kind: Kind, e: nat, i: nat, fence: string): Pieces
    requires e + i + 1 + |fence| <= |input|
  {
    Pieces(input[..e], kind, input[e..e + i + 1], fence, input[e + i + 1 + |fence|..])
  }

  function SplitDocument(input: string): SplitResult {
    var e := OpeningEnd(input);
    if e.None? || KindOf(TrimSpace(input[..e.value])).None? then Whole
    else
      var kind := KindOf(TrimSpace(input[..e.value])).value;
      var f := ClosingFence(input[e.value..], Closers(kind));
      if f.None? then Dangling
      else
        var fence := Closers(kind)[f.value];
        Cut(CutAt(input, kind, e.value, Index(input[e.value..], "\n" + fence), fence))
  }

  /** The text given to the parser: JSON gets its braces back. */
  function Payload(kind: Kind, raw: string): string {
    if kind == Json then "{" + raw + "}" else raw
  }

  function Extract<M>(input: string, parse: Parser<M>): Extracted<M> {
    match SplitDocument(input)
    case Whole => NoMatter(input)
    case Dangling => Unterminated
    case Cut(p) =>
      match parse(p.kind, Payload(p.kind, p.raw))
      case None => Unparsable
      case Some(meta) => Matter(meta, p.body)
  }

  // ----- The loops of the source -----

  /** The bounds of the first line with something on it. */
  method FirstLineBounds(input: string) returns (firstLineStart: nat, firstLineEnd: nat)
    ensures firstLineStart <= firstLineEnd <= |input|
    ensures match OpeningEnd(input)
            case Some(e) => firstLineEnd == e && TrimSpace(input[firstLineStart..firstLineEnd]) == TrimSpace(input[..e])
            case None => TrimSpace(input[firstLineStart..firstLineEnd]) == ""
  {
    firstLineStart, firstLineEnd := 0, 0;
    var lineEmpty := true;
    var i := 0;
    while i < |input|
      invariant 0 <= i <= |input|
      invariant firstLineStart <= firstLineEnd <= i && (i > 0 ==> firstLineEnd < i)
      invariant lineEmpty == AllSpace(input[..i])
      invariant firstLineEnd > 0 ==> input[firstLineEnd] == '\n'
      invariant AllSpace(input[..firstLineEnd])
      invariant forall j :: 0 <= j < i ==> !EndsOpening(input, j)
    {
      var b := input[i];
      assert AllSpace(input[..i + 1]) == (AllSpace(input[..i]) && IsSpace(b)) by {
        assert input[..i + 1] == input[..i] + [b];
      }
      if b == '\n' {
        firstLineStart := firstLineEnd;
        if firstLineStart > 0 {
          firstLineStart := firstLineStart + 1;
        }
        firstLineEnd := i;
        if !lineEmpty {
          assert EndsOpening(input, i);
          AbsorbPrefix(input, firstLineStart, i);
          return;
        }
      } else {
        lineEmpty := lineEmpty && IsSpace(b);
      }
      i := i + 1;
    }
    AbsorbPrefix(input, firstLineStart, firstLineEnd);
    BlankTrims(input[..firstLineEnd]);
  }

  lemma AbsorbPrefix(s: string, i: nat, j: nat)
    requires i <= j <= |s| && AllSpace(s[..i])
    ensures TrimSpace(s[i..j]) == TrimSpace(s[..j])
  {
    TrimSpaceAbsorbs(s[..i], s[i..j], "");
    assert s[..i] + s[i..j] + "" == s[..j];
  }

  lemma BlankTrims(s: string)
    requires AllSpace(s)
    ensures TrimSpace(s) == ""
  {
    TrimSpaceUnique(s, "", "");
    assert s + "" + "" == s;
  }

  method RecognizeKind(firstLine: string) returns (kind: Option<Kind>)
    ensures kind == KindOf(firstLine)
  {
    kind := None;
    for i := 0 to |KINDS|
      invariant kind.Some? ==> Open(kind.value) == firstLine
      invariant kind.None? ==> forall j :: 0 <= j < i ==> Open(KINDS[j]) != firstLine
    {
      if firstLine == Open(KINDS[i]) {
        kind := Some(KINDS[i]);
      }
    }
    assert KINDS[0] == Yaml && KINDS[1] == Toml && KINDS[2] == Json;
  }

  /** The position of the closing fence and which one it is; -1 when there is none. */
  method FindFence(rest: string, fences: seq<string>) returns (start: int, which: nat)
    ensures match ClosingFence(rest, fences)
            case None => start == -1
            case Some(f) => which == f && start == Index(rest, "\n" + fences[f])
  {
    start, which := -1, 0;
    for i := 0 to |fences|
      invariant start == -1
      invariant ClosingFence(rest, fences) == ClosingFence(rest, fences, i)
    {
      var index := Index(rest, "\n" + fences[i]);
      if index >= 0 {
        start, which := index, i;
        break;
      }
    }
  }

  lemma SplitWhole(input: string)
    requires OpeningEnd(input).None? || KindOf(TrimSpace(input[..OpeningEnd(input).value])).None?
    ensures SplitDocument(input) == Whole
  {
  }

  lemma SplitCut(input: string, e: nat, kind: Kind)
    requires OpeningEnd(input) == Some(e) && KindOf(TrimSpace(input[..e])) == Some(kind)
    ensures match ClosingFence(input[e..], Closers(kind))
            case None => SplitDocument(input) == Dangling
            case Some(f) =>
              var fence := Closers(kind)[f];
              SplitDocument(input) == Cut(CutAt(input, kind, e, Index(input[e..], "\n" + fence), fence))
  {
  }

  /** Everything up to parsing the front matter. */
  method SplitInput(input: string) returns (r: SplitResult)
    ensures r == SplitDocument(input)
  {
    var firstLineStart, firstLineEnd := FirstLineBounds(input);
    var kind := RecognizeKind(TrimSpace(input[firstLineStart..firstLineEnd]));
    if kind == None {
      SplitWhole(input);
      return Whole;
    }
    SplitCut(input, firstLineEnd, kind.value);
    var fences := Closers(kind.value);
    var fmEndFenceStart, which := FindFence(input[firstLineEnd..], fences);
    if fmEndFenceStart < 0 {
      return Dangling;
    }
    r := Cut(CutAt(input, kind.value, firstLineEnd, fmEndFenceStart, fences[which]));
  }

  method ExtractFrontMatter<M>(input: string, parse: Parser<M>) returns (r: Extracted<M>)
    ensures r == Extract(input, parse)
  {
    var split := SplitInput(input);
    match split {
      case Whole =>
        r := NoMatter(input);
      case Dangling =>
        r := Unterminated;
      case Cut(p) =>
        var fm := parse(p.kind, Payload(p.kind, p.raw));
        if fm.None? {
          return Unparsable;
        }
        r := Matter(fm.value, p.body);
    }
  }
}
