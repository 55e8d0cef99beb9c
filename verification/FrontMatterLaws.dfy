/** The split loses nothing, cuts where it should, and undoes printing exactly when the front
    matter and the body hold no closing marker that would be found first. */
module FrontMatterLaws {
  import opened Text
  import opened FrontMatter
  import opened Wrappers

  function Unsplit(p: Pieces): string {
    p.opening + p.raw + p.fence + p.body
  }

  lemma FencesPlain(kind: Kind, i: nat)
    requires i < |Closers(kind)|
    ensures Closers(kind)[i] != "" && Free(Closers(kind)[i], '\n')
  {
  }

  lemma FencesDiffer(kind: Kind, i: nat, j: nat)
    requires i < |Closers(kind)| && j < |Closers(kind)| && i != j
    ensures Closers(kind)[i] != Closers(kind)[j] && |Closers(kind)[i]| == |Closers(kind)[j]|
  {
    if kind == Yaml {
      assert "---"[0] != "..."[0];
    }
  }

  /** A document that is cut is its pieces put back together; the opening line is the first
      line with something on it; the front matter runs from its newline to the first newline
      that starts the closing fence. */
  ghost predicate CutWell(input: string, p: Pieces) {
    && Unsplit(p) == input
    && TrimSpace(p.opening) == Open(p.kind)
    && OpeningEnd(input) == Some(|p.opening|)
    && p.raw != "" && p.raw[0] == '\n' && p.raw[|p.raw| - 1] == '\n'
    && Index(p.raw + p.fence + p.body, "\n" + p.fence) == |p.raw| - 1
  }

  /** No fence of the kind listed before f occurs at the start of a line. */
  ghost predicate NoneBefore(text: string, kind: Kind, f: nat) {
    forall i :: 0 <= i < f <= |Closers(kind)| ==> !Occurs(text, "\n" + Closers(kind)[i])
  }

  /** The split loses nothing and cuts at the first fence in the list that occurs at all; a
      document is left dangling only when none of them occurs. */
  lemma SplitLossless(input: string)
    ensures match SplitDocument(input)
            case Whole =>
              OpeningEnd(input).Some? ==> TrimSpace(input[..OpeningEnd(input).value]) !in {"---", "+++", "{"}
            case Dangling =>
              exists k: Kind, e: nat :: OpeningEnd(input) == Some(e) && TrimSpace(input[..e]) == Open(k)
                                        && NoneBefore(input[e..], k, |Closers(k)|)
            case Cut(p) =>
              && CutWell(input, p)
              && exists f: nat :: f < |Closers(p.kind)| && Closers(p.kind)[f] == p.fence
                                  && NoneBefore(p.raw + p.fence + p.body, p.kind, f)
  {
    match SplitDocument(input)
    case Whole =>
    case Dangling =>
      var e := OpeningEnd(input).value;
      NoFence(input[e..], KindOf(TrimSpace(input[..e])).value);
    case Cut(p) =>
      var e := OpeningEnd(input).value;
      SplitCut(input, e, p.kind);
      CutIsLossless(input, p.kind, e);
  }

  lemma NoFence(text: string, kind: Kind)
    ensures var f := ClosingFence(text, Closers(kind));
            NoneBefore(text, kind, if f.Some? then f.value else |Closers(kind)|)
  {
    hide Closers;
  }

  lemma CutIsLossless(input: string, kind: Kind, e: nat)
    requires OpeningEnd(input) == Some(e) && KindOf(TrimSpace(input[..e])) == Some(kind)
    requires ClosingFence(input[e..], Closers(kind)).Some?
    ensures var f := ClosingFence(input[e..], Closers(kind)).value;
            var fence := Closers(kind)[f];
            var p := CutAt(input, kind, e, Index(input[e..], "\n" + fence), fence);
            CutWell(input, p) && NoneBefore(p.raw + p.fence + p.body, kind, f)
  {
    hide OpeningEnd, ClosingFence, Closers, TrimSpace, NoneBefore;
    var f := ClosingFence(input[e..], Closers(kind)).value;
    CutLossless(input, kind, e, Index(input[e..], "\n" + Closers(kind)[f]), Closers(kind)[f]);
    NoFence(input[e..], kind);
  }

  lemma MarkAt(rest: string, i: nat, fence: string)
    requires OccursAt(rest, "\n" + fence, i)
    ensures rest[i] == '\n' && rest[i + 1..i + 1 + |fence|] == fence
    ensures rest == rest[..i + 1] + fence + rest[i + 1 + |fence|..]
  {
    var mark := "\n" + fence;
    assert rest[i..i + |mark|] == mark;
    assert rest[i] == mark[0];
    assert rest[i + 1..i + |mark|] == mark[1..] == fence;
  }

  lemma SlicesAfter(opening: string, rest: string, i: nat, j: nat)
    requires i <= j <= |rest|
    ensures var input, e := opening + rest, |opening|;
            && input[..e] == opening && input[e..] == rest
            && input[e..e + i] == rest[..i] && input[e + j..] == rest[j..]
  {
  }

  /** The cut, in terms of what follows the opening line. */
  lemma CutIs(opening: string, rest: string, kind: Kind, fence: string, i: nat)
    requires i + 1 + |fence| <= |rest|
    ensures CutAt(opening + rest, kind, |opening|, i, fence)
         == Pieces(opening, kind, rest[..i + 1], fence, rest[i + 1 + |fence|..])
  {
    SlicesAfter(opening, rest, i + 1, i + 1 + |fence|);
  }

  lemma CutLossless(input: string, kind: Kind, e: nat, i: nat, fence: string)
    requires e < |input| && input[e] == '\n' && OccursAt(input[e..], "\n" + fence, i)
    ensures var p := CutAt(input, kind, e, i, fence);
            && p.raw + p.fence + p.body == input[e..] && Unsplit(p) == input
            && |p.raw| == i + 1 && p.raw[0] == '\n' && p.raw[i] == '\n'
  {
    var opening, rest := input[..e], input[e..];
    MarkAt(rest, i, fence);
    CutIs(opening, rest, kind, fence, i);
    assert input == opening + rest;
    Reassociate(opening, rest[..i + 1], fence, rest[i + 1 + |fence|..]);
  }

  lemma Reassociate(a: string, b: string, c: string, d: string)
    ensures a + b + c + d == a + (b + c + d)
  {
  }

  // ----- Printing and splitting again -----

  /** An opening line, blank lines and padding before it included: its fence, and no newline
      after something has been written. */
  predicate IsOpening(opening: string, kind: Kind) {
    TrimSpace(opening) == Open(kind) && OpeningEnd(opening).None?
  }

  predicate IsRaw(raw: string) {
    raw != "" && raw[0] == '\n' && raw[|raw| - 1] == '\n'
  }

  lemma MarkPrinted(raw: string, fence: string, body: string)
    requires IsRaw(raw)
    ensures OccursAt(raw + fence + body, "\n" + fence, |raw| - 1)
  {
    var text, n := raw + fence + body, |raw| - 1;
    assert text[n] == '\n' && text[n + 1..n + 1 + |fence|] == fence;
    assert text[n..n + 1 + |fence|] == [text[n]] + text[n + 1..n + 1 + |fence|];
  }

  lemma OccursLifted(raw: string, tail: string, mark: string, j: nat)
    requires j + |mark| <= |raw|
    ensures OccursAt(raw + tail, mark, j) == OccursAt(raw, mark, j)
  {
    assert (raw + tail)[j..j + |mark|] == raw[j..j + |mark|];
  }

  /** The newline that ends the front matter is not inside an earlier occurrence. */
  lemma NoStraddle(raw: string, tail: string, fence: string, i: nat)
    requires IsRaw(raw) && Free(fence, '\n') && i < |raw| - 1 < i + 1 + |fence|
    ensures !OccursAt(raw + tail, "\n" + fence, i)
  {
    var text, mark, n := raw + tail, "\n" + fence, |raw| - 1;
    if i + |mark| <= |text| {
      assert text[i..i + |mark|][n - i] == text[n] == '\n';
      assert mark[n - i] == fence[n - i - 1];
    }
  }

  /** The closing fence of a printed document is found where it was put, exactly when the
      front matter does not hold it at the start of a line. */
  lemma FenceFound(raw: string, fence: string, body: string)
    requires IsRaw(raw) && fence != "" && Free(fence, '\n')
    ensures Index(raw + fence + body, "\n" + fence) == |raw| - 1 <==> !Occurs(raw, "\n" + fence)
  {
    var mark, n := "\n" + fence, |raw| - 1;
    assert raw + fence + body == raw + (fence + body);
    MarkPrinted(raw, fence, body);
    var i := Index(raw + (fence + body), mark);
    if Occurs(raw, mark) {
      var j :| 0 <= j <= |raw| && OccursAt(raw, mark, j);
      OccursLifted(raw, fence + body, mark, j);
    } else if i < n {
      if i + |mark| <= |raw| {
        OccursLifted(raw, fence + body, mark, i);
      } else {
        NoStraddle(raw, fence + body, fence, i);
      }
    }
  }

  lemma OpeningFound(opening: string, kind: Kind, rest: string)
    requires IsOpening(opening, kind) && rest != "" && rest[0] == '\n'
    ensures OpeningEnd(opening + rest) == Some(|opening|)
  {
    var input, n := opening + rest, |opening|;
    assert forall j :: 0 <= j < n ==> input[..j] == opening[..j];
    assert forall j :: 0 <= j < n ==> EndsOpening(input, j) == EndsOpening(opening, j);
    assert input[..n] == opening;
    if AllSpace(opening) {
      BlankTrims(opening);
    }
    assert EndsOpening(input, n);
  }

  lemma SplitPrinted(p: Pieces)
    requires IsOpening(p.opening, p.kind) && IsRaw(p.raw)
    ensures var rest := p.raw + p.fence + p.body;
            match ClosingFence(rest, Closers(p.kind))
            case None => SplitDocument(Unsplit(p)) == Dangling
            case Some(c) =>
              var g := Closers(p.kind)[c];
              var i := Index(rest, "\n" + g);
              SplitDocument(Unsplit(p)) == Cut(Pieces(p.opening, p.kind, rest[..i + 1], g, rest[i + 1 + |g|..]))
  {
    var rest, e := p.raw + p.fence + p.body, |p.opening|;
    assert Unsplit(p) == p.opening + rest;
    OpeningFound(p.opening, p.kind, rest);
    assert (p.opening + rest)[..e] == p.opening && (p.opening + rest)[e..] == rest;
    assert KindOf(Open(p.kind)) == Some(p.kind);
    SplitCut(p.opening + rest, e, p.kind);
    var c := ClosingFence(rest, Closers(p.kind));
    if c.Some? {
      CutIs(p.opening, rest, p.kind, Closers(p.kind)[c.value], Index(rest, "\n" + Closers(p.kind)[c.value]));
    }
  }

  /** Splitting undoes printing if and only if no closing marker is found before the one
      printed: not the same fence within the front matter, and no fence listed earlier in the
      front matter, fence or body. */
  lemma PrintRoundTrip(p: Pieces, f: nat)
    requires IsOpening(p.opening, p.kind) && IsRaw(p.raw)
    requires f < |Closers(p.kind)| && p.fence == Closers(p.kind)[f]
    ensures SplitDocument(Unsplit(p)) == Cut(p) <==>
            && !Occurs(p.raw, "\n" + p.fence)
            && forall i :: 0 <= i < f ==> !Occurs(p.raw + p.fence + p.body, "\n" + Closers(p.kind)[i])
  {
    var rest := p.raw + p.fence + p.body;
    SplitPrinted(p);
    FencesPlain(p.kind, f);
    FenceFound(p.raw, p.fence, p.body);
    var c := ClosingFence(rest, Closers(p.kind));
    assert forall i :: 0 <= i < |Closers(p.kind)| ==>
             (Occurs(rest, "\n" + Closers(p.kind)[i]) <==> Index(rest, "\n" + Closers(p.kind)[i]) >= 0);
    if c.Some? {
      if c.value != f {
        FencesDiffer(p.kind, c.value, f);
      } else {
        assert rest[..|p.raw|] == p.raw && rest[|p.raw| + |p.fence|..] == p.body;
      }
    }
  }

  /** YAML and TOML front matter is closed by the fence that opened it, and YAML also by dots;
      JSON, which is parsed with the braces put back, by the closing brace. */
  lemma ClosedByItsFence(p: Pieces)
    requires IsOpening(p.opening, p.kind) && IsRaw(p.raw) && !Occurs(p.raw, "\n" + p.fence)
    requires p.fence == if p.kind == Json then "}" else Open(p.kind)
    ensures SplitDocument(Unsplit(p)) == Cut(p)
  {
    assert Closers(p.kind)[0] == p.fence;
    PrintRoundTrip(p, 0);
  }

  /** Printed front matter and body come back, once the front matter parses. */
  lemma ExtractPrinted<M>(p: Pieces, f: nat, parse: Parser<M>, meta: M)
    requires IsOpening(p.opening, p.kind) && IsRaw(p.raw)
    requires f < |Closers(p.kind)| && p.fence == Closers(p.kind)[f]
    requires !Occurs(p.raw, "\n" + p.fence) && NoneBefore(p.raw + p.fence + p.body, p.kind, f)
    requires parse(p.kind, Payload(p.kind, p.raw)) == Some(meta)
    ensures Extract(Unsplit(p), parse) == Matter(meta, p.body)
  {
    PrintRoundTrip(p, f);
  }

  /** Front matter closed with "..." is not given back when the body holds "---" at the start
      of a line, as a horizontal rule does: everything up to that rule is taken. */
  lemma DotsLoseToDashes(p: Pieces)
    requires IsOpening(p.opening, Yaml) && p.kind == Yaml && IsRaw(p.raw) && p.fence == "..."
    requires Occurs(p.body, "\n---")
    ensures SplitDocument(Unsplit(p)) != Cut(p)
  {
    var j :| 0 <= j <= |p.body| && OccursAt(p.body, "\n---", j);
    var rest, n := p.raw + p.fence + p.body, |p.raw + p.fence|;
    assert rest[n + j..n + j + 4] == p.body[j..j + 4];
    assert OccursAt(rest, "\n---", n + j) && Occurs(rest, "\n---");
    assert Closers(Yaml)[0] == "---" && "\n" + Closers(Yaml)[0] == "\n---";
    PrintRoundTrip(p, 1);
  }

  // ----- The three kinds, one by one -----

  /** A document is taken whole exactly when no line has anything on it, or the first that has
      is none of the three opening fences. */
  lemma WholeIff<M>(input: string, parse: Parser<M>)
    ensures Extract(input, parse) == NoMatter(input) <==>
            var e := OpeningEnd(input);
            e.None? || TrimSpace(input[..e.value]) !in {"---", "+++", "{"}
  {
    hide OpeningEnd, TrimSpace;
    assert Open(Yaml) == "---" && Open(Toml) == "+++" && Open(Json) == "{";
  }

  /** Spaces, tabs and carriage returns at the end of the opening line do not matter, nor do
      these and newlines before it. */
  predicate Blanks(lead: string, w: string) {
    && (forall i :: 0 <= i < |lead| ==> lead[i] in {' ', '\t', '\r', '\n'})
    && (forall i :: 0 <= i < |w| ==> w[i] in {' ', '\t', '\r'})
  }

  lemma OpeningLine(lead: string, fence: string, w: string, kind: Kind)
    requires Blanks(lead, w) && fence == Open(kind)
    ensures IsOpening(lead + fence + w, kind)
  {
    assert AllSpace(lead) && AllSpace(w);
    assert Trimmed(fence) && Free(fence, '\n');
    TrimSpaceUnique(lead, fence, w);
    var opening := lead + fence + w;
    forall j
      ensures !EndsOpening(opening, j)
    {
      if 0 <= j < |lead| {
        assert opening[..j] == lead[..j] && AllSpace(lead[..j]);
      } else if |lead| <= j < |opening| {
        assert opening[j] == (fence + w)[j - |lead|];
      }
    }
    assert OpeningEnd(opening).None?;
  }

  /** YAML stands between two lines of dashes. */
  lemma YamlDocument(lead: string, w: string, raw: string, body: string)
    requires Blanks(lead, w) && IsRaw(raw) && !Occurs(raw, "\n---")
    ensures SplitDocument(lead + "---" + w + raw + "---" + body) == Cut(Pieces(lead + "---" + w, Yaml, raw, "---", body))
  {
    OpeningLine(lead, "---", w, Yaml);
    hide IsOpening, SplitDocument, Occurs, IsRaw, Blanks;
    assert "\n" + "---" == "\n---";
    ClosedByItsFence(Pieces(lead + "---" + w, Yaml, raw, "---", body));
  }

  /** Three dots close it too, when no line that follows starts with dashes. */
  lemma YamlClosedByDots(lead: string, w: string, raw: string, body: string)
    requires Blanks(lead, w) && IsRaw(raw) && !Occurs(raw, "\n...") && !Occurs(raw + "..." + body, "\n---")
    ensures SplitDocument(lead + "---" + w + raw + "..." + body) == Cut(Pieces(lead + "---" + w, Yaml, raw, "...", body))
  {
    OpeningLine(lead, "---", w, Yaml);
    hide IsOpening, SplitDocument, Occurs, IsRaw, Blanks;
    assert Closers(Yaml)[1] == "..." && Closers(Yaml)[0] == "---";
    assert "\n" + "---" == "\n---" && "\n" + "..." == "\n...";
    PrintRoundTrip(Pieces(lead + "---" + w, Yaml, raw, "...", body), 1);
  }

  /** TOML stands between two lines of pluses. */
  lemma TomlDocument(lead: string, w: string, raw: string, body: string)
    requires Blanks(lead, w) && IsRaw(raw) && !Occurs(raw, "\n+++")
    ensures SplitDocument(lead + "+++" + w + raw + "+++" + body) == Cut(Pieces(lead + "+++" + w, Toml, raw, "+++", body))
  {
    OpeningLine(lead, "+++", w, Toml);
    hide IsOpening, SplitDocument, Occurs, IsRaw, Blanks;
    assert "\n" + "+++" == "\n+++";
    ClosedByItsFence(Pieces(lead + "+++" + w, Toml, raw, "+++", body));
  }

  /** JSON stands between its own braces, and is parsed with them. */
  lemma JsonDocument<M>(lead: string, w: string, raw: string, body: string, parse: Parser<M>, meta: M)
    requires Blanks(lead, w) && IsRaw(raw) && !Occurs(raw, "\n}") && parse(Json, "{" + raw + "}") == Some(meta)
    ensures SplitDocument(lead + "{" + w + raw + "}" + body) == Cut(Pieces(lead + "{" + w, Json, raw, "}", body))
    ensures Extract(lead + "{" + w + raw + "}" + body, parse) == Matter(meta, body)
  {
    OpeningLine(lead, "{", w, Json);
    assert "\n" + "}" == "\n}";
    ClosedByItsFence(Pieces(lead + "{" + w, Json, raw, "}", body));
    hide IsOpening, SplitDocument, Occurs, IsRaw, Blanks;
  }
}
